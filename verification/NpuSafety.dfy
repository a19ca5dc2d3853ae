/**
  What every interleaving of the engine keeps: mutual exclusion, one turn per request,
  the shared memories as a sequential engine leaves them, and exact counting.
 */
module NpuSafety {
  import opened MachineInts
  import opened Npu

  // ---------------------------------------------------------------------
  // What one action leaves alone
  // ---------------------------------------------------------------------

  lemma {:induction false} AloneFrame(dev: Device, s: State, t: nat)
    requires t in s.threads && BeforeLock(s.threads[t].pc)
    ensures
      var next := ActAlone(dev, s, t);
      && t in next.threads && next.threads == s.threads[t := next.threads[t]]
      && next.threads[t].request == s.threads[t].request
      && next.memory == s.memory && next.now == s.now
    ensures
      var next := ActAlone(dev, s, t);
      if s.threads[t].pc == Locking then
        && next.holder == HeldBy(t) && next.threads[t].pc == Dequeueing && next.threads[t].turn == |s.tickets|
        && next.tickets == s.tickets + [Ticket(t, s.threads[t].request, NoFault, s.now, s.now)]
      else
        && next.holder == s.holder && !Critical(next.threads[t].pc)
        && (next.threads[t].pc.Returned? ==> next.threads[t].reply.BadArguments? || next.threads[t].reply.Undecodable?)
        && next.tickets == s.tickets
  {
  }

  lemma {:induction false} HoldingFrame(dev: Device, s: State, t: nat, fault: Fault)
    requires dev.Ok() && t in s.threads && Critical(s.threads[t].pc)
    ensures
      var next := ActHolding(dev, s, t, fault);
      && t in next.threads && next.threads == s.threads[t := next.threads[t]]
      && next.threads[t].request == s.threads[t].request
      && next.threads[t].turn == s.threads[t].turn
      && next.threads[t].image == s.threads[t].image
      && next.now == s.now
    ensures
      var next := ActHolding(dev, s, t, fault);
      if s.threads[t].pc == Releasing then
        && next.holder == Free && next.threads[t] == s.threads[t].(pc := Returned)
        && next.tickets == s.tickets && next.memory == s.memory
      else
        next.holder == s.holder && Critical(next.threads[t].pc)
  {
  }

  lemma {:induction false} HoldingKeepsTickets(dev: Device, s: State, t: nat, fault: Fault)
    requires dev.Ok() && t in s.threads && Critical(s.threads[t].pc)
    ensures
      var next := ActHolding(dev, s, t, fault);
      && |next.tickets| == |s.tickets|
      && (forall i | 0 <= i < |s.tickets| - 1 :: next.tickets[i] == s.tickets[i])
      && (s.tickets != [] ==>
           var i := |s.tickets| - 1;
           next.tickets[i].thread == s.tickets[i].thread && next.tickets[i].request == s.tickets[i].request)
  {
  }

  // ---------------------------------------------------------------------
  // Mutual exclusion
  // ---------------------------------------------------------------------

  ghost predicate Exclusive(s: State) {
    && (forall t | t in s.threads :: Critical(s.threads[t].pc) <==> s.holder == HeldBy(t))
    && (s.holder.HeldBy? ==> s.holder.thread in s.threads)
  }

  lemma {:induction false} ExclusiveKept(dev: Device, s: State, e: Event)
    requires dev.Ok() && Enabled(s, e) && Exclusive(s)
    ensures Exclusive(Apply(dev, s, e))
  {
    match e
    case Arrive(_, _) =>
    case Tick(_) =>
    case Act(t, fault) =>
      if BeforeLock(s.threads[t].pc) {
        AloneFrame(dev, s, t);
      } else {
        HoldingFrame(dev, s, t, fault);
      }
  }

  // ---------------------------------------------------------------------
  // One turn per request
  // ---------------------------------------------------------------------

  /** Threads that have taken the mutex. */
  predicate Ticketed(th: Thread) {
    Critical(th.pc) || (th.pc.Returned? && (th.reply.Failed? || th.reply.Done?))
  }

  ghost predicate TurnOf(s: State, t: nat)
    requires t in s.threads
  {
    var th := s.threads[t];
    Ticketed(th) ==>
      && th.turn < |s.tickets|
      && s.tickets[th.turn].thread == t
      && s.tickets[th.turn].request == th.request
  }

  ghost predicate OwnerOf(s: State, i: nat)
    requires i < |s.tickets|
  {
    var t := s.tickets[i].thread;
    t in s.threads && s.threads[t].turn == i && Ticketed(s.threads[t])
  }

  ghost predicate OneTurnEach(s: State) {
    && (forall t | t in s.threads :: TurnOf(s, t))
    && (forall i: nat | i < |s.tickets| :: OwnerOf(s, i))
    && (s.holder.HeldBy? && s.holder.thread in s.threads ==> s.threads[s.holder.thread].turn == |s.tickets| - 1)
  }

  lemma {:induction false} OneTurnEachKeptAlone(dev: Device, s: State, t: nat)
    requires dev.Ok() && Exclusive(s) && OneTurnEach(s)
    requires Enabled(s, Act(t, NoFault)) && BeforeLock(s.threads[t].pc)
    ensures OneTurnEach(ActAlone(dev, s, t))
  {
    var next := ActAlone(dev, s, t);
    AloneFrame(dev, s, t);
    assert TurnOf(s, t);
    forall u | u in next.threads ensures TurnOf(next, u) {
      if u != t {
        assert TurnOf(s, u);
      }
    }
    forall i: nat | i < |next.tickets| ensures OwnerOf(next, i) {
      if i < |s.tickets| {
        assert OwnerOf(s, i);
      }
    }
  }

  lemma {:induction false} OneTurnEachKeptHolding(dev: Device, s: State, t: nat, fault: Fault)
    requires dev.Ok() && Exclusive(s) && OneTurnEach(s)
    requires Enabled(s, Act(t, fault)) && !BeforeLock(s.threads[t].pc)
    requires s.threads[t].pc == Releasing ==> s.threads[t].reply.Failed? || s.threads[t].reply.Done?
    ensures OneTurnEach(ActHolding(dev, s, t, fault))
  {
    var next := ActHolding(dev, s, t, fault);
    HoldingFrame(dev, s, t, fault);
    HoldingKeepsTickets(dev, s, t, fault);
    assert TurnOf(s, t);
    forall u | u in next.threads ensures TurnOf(next, u) {
      assert TurnOf(s, u);
    }
    forall i: nat | i < |next.tickets| ensures OwnerOf(next, i) {
      assert OwnerOf(s, i);
    }
  }

  // ---------------------------------------------------------------------
  // The shared memories
  // ---------------------------------------------------------------------

  /** Turns that agree on requests and faults leave the same memory, whenever they ran. */
  lemma {:induction false} SameTurnsSameMemory(dev: Device, start: Memory, a: seq<Ticket>, b: seq<Ticket>, n: nat)
    requires dev.Ok() && n <= |a| && n <= |b|
    requires forall i | 0 <= i < n :: a[i].request == b[i].request && a[i].fault == b[i].fault
    ensures MemoryAfter(dev, start, a, n) == MemoryAfter(dev, start, b, n)
  {
    if n == 0 {
    } else {
      SameTurnsSameMemory(dev, start, a, b, n - 1);
    }
  }

  lemma {:induction false} InputKeepsItsSize(dev: Device, start: Memory, tickets: seq<Ticket>, n: nat)
    requires dev.Ok() && n <= |tickets| && |start.input| == dev.inputSize
    ensures |MemoryAfter(dev, start, tickets, n).input| == dev.inputSize
  {
  }

  /** A thread that has decoded keeps the image of its own request. */
  ghost predicate OwnImage(dev: Device, th: Thread) {
    && (!th.pc.Entering? && !th.pc.Decoding? && !th.pc.Returned? ==>
         th.image == dev.decode(th.request.encoded) && !th.image.Empty() && th.request.encoded != [])
    && (th.pc.Decoding? ==> th.request.encoded != [])
  }

  ghost predicate OwnImages(dev: Device, s: State) {
    forall t | t in s.threads :: OwnImage(dev, s.threads[t])
  }

  lemma {:induction false} OwnImageKept(dev: Device, s: State, t: nat)
    requires dev.Ok() && t in s.threads && BeforeLock(s.threads[t].pc) && OwnImage(dev, s.threads[t])
    ensures OwnImage(dev, ActAlone(dev, s, t).threads[t])
  {
  }

  lemma {:induction false} OwnImagesKept(dev: Device, s: State, e: Event)
    requires dev.Ok() && Enabled(s, e) && OwnImages(dev, s)
    ensures OwnImages(dev, Apply(dev, s, e))
  {
    match e
    case Arrive(_, _) =>
    case Tick(_) =>
    case Act(t, fault) =>
      if BeforeLock(s.threads[t].pc) {
        AloneFrame(dev, s, t);
        OwnImageKept(dev, s, t);
      } else {
        HoldingFrame(dev, s, t, fault);
      }
  }

  /** The memory while thread `th` takes the turn `last`, given the memory before that turn. */
  ghost predicate MidTurn(dev: Device, before: Memory, memory: Memory, last: Ticket, th: Thread)
    requires dev.Ok()
  {
    var target := dev.resize(th.image);
    var after := Serve(dev, before, last).1;
    match th.pc
    case Dequeueing => memory == before && last.fault == NoFault
    case Subtracting => memory == before && last.fault == NoFault
    case Resizing(k) =>
      && |memory.input| == dev.inputSize && k <= dev.inputSize
      && memory.input[..k] == target[..k]
      && memory.output == before.output && last.fault == NoFault
    case Starting => memory == Memory(target, before.output) && last.fault == NoFault
    case Running => memory == Memory(target, before.output) && last.fault == NoFault
    case Reading(got) =>
      && memory == after && last.fault == NoFault
      && |got| <= |memory.output| && got == memory.output[..|got|]
    case Ending(ok) =>
      && memory == after
      && (ok <==> last.fault == NoFault)
      && (ok ==> th.raws == dev.Results(dev.run(target), th.request.options))
    case Copying =>
      memory == after && last.fault == NoFault && th.raws == dev.Results(dev.run(target), th.request.options)
    case Totalling =>
      && memory == after && last.fault == NoFault
      && Detected(th.image.cols, th.image.rows, th.report) == Serve(dev, before, last).0
    case Releasing =>
      && memory == after
      && Answers(th.reply, Serve(dev, before, last).0)
    case _ => true
  }

  /** A reply that tells the client what its turn produced. */
  predicate Answers(reply: Reply, outcome: Outcome) {
    if outcome == Broken then reply == Failed else reply.Done? && reply.outcome == outcome
  }

  ghost predicate AsIfSequential(dev: Device, start: Memory, s: State)
    requires dev.Ok()
  {
    match s.holder
    case Free => s.memory == MemoryAfter(dev, start, s.tickets, |s.tickets|)
    case HeldBy(t) =>
      && t in s.threads && s.tickets != []
      && MidTurn(dev, MemoryAfter(dev, start, s.tickets, |s.tickets| - 1), s.memory,
                 s.tickets[|s.tickets| - 1], s.threads[t])
  }

  /** One action of the holder, on the memory and on its own ticket. */
  lemma {:induction false} MidTurnKept(dev: Device, before: Memory, s: State, t: nat, fault: Fault)
    requires dev.Ok() && t in s.threads && s.tickets != [] && |before.input| == dev.inputSize
    requires Critical(s.threads[t].pc) && s.threads[t].pc != Releasing
    requires OwnImage(dev, s.threads[t])
    requires s.tickets[|s.tickets| - 1].request == s.threads[t].request
    requires MidTurn(dev, before, s.memory, s.tickets[|s.tickets| - 1], s.threads[t])
    ensures
      var next := ActHolding(dev, s, t, fault);
      && |next.tickets| == |s.tickets|
      && (forall i | 0 <= i < |s.tickets| - 1 :: next.tickets[i] == s.tickets[i])
      && MidTurn(dev, before, next.memory, next.tickets[|s.tickets| - 1], next.threads[t])
  {
    match s.threads[t].pc
    case Resizing(k) =>
      MidTurnResizing(dev, before, s, t, fault);
    case Reading(got) =>
      if |got| < |s.memory.output| {
        assert s.memory.output[..|got| + 1] == got + [s.memory.output[|got|]];
      } else {
        assert s.memory.output[..|got|] == s.memory.output;
      }
    case _ =>
  }

  lemma {:induction false} MidTurnResizing(dev: Device, before: Memory, s: State, t: nat, fault: Fault)
    requires dev.Ok() && t in s.threads && s.tickets != []
    requires s.threads[t].pc.Resizing?
    requires MidTurn(dev, before, s.memory, s.tickets[|s.tickets| - 1], s.threads[t])
    ensures
      var next := ActHolding(dev, s, t, fault);
      && next.tickets == s.tickets
      && MidTurn(dev, before, next.memory, next.tickets[|s.tickets| - 1], next.threads[t])
  {
    var k := s.threads[t].pc.written;
    var target := dev.resize(s.threads[t].image);
    if k < dev.inputSize {
      assert s.memory.input[k := target[k]][..k + 1] == target[..k + 1];
    } else {
      assert s.memory.input[..k] == s.memory.input && target[..k] == target;
    }
  }

  lemma {:induction false} SequentialKeptAlone(dev: Device, start: Memory, s: State, t: nat)
    requires dev.Ok() && Exclusive(s) && AsIfSequential(dev, start, s)
    requires Enabled(s, Act(t, NoFault)) && BeforeLock(s.threads[t].pc)
    ensures AsIfSequential(dev, start, ActAlone(dev, s, t))
  {
    var next := ActAlone(dev, s, t);
    if s.threads[t].pc == Locking {
      SequentialAfterLock(dev, start, s, t);
    } else {
      assert next.holder == s.holder && next.tickets == s.tickets && next.memory == s.memory
             && next.threads == s.threads[t := next.threads[t]] by {
        AloneFrame(dev, s, t);
      }
    }
  }

  lemma {:induction false} SequentialAfterLock(dev: Device, start: Memory, s: State, t: nat)
    requires dev.Ok() && AsIfSequential(dev, start, s)
    requires Enabled(s, Act(t, NoFault)) && s.threads[t].pc == Locking
    ensures AsIfSequential(dev, start, ActAlone(dev, s, t))
  {
    var next := ActAlone(dev, s, t);
    SameTurnsSameMemory(dev, start, s.tickets, next.tickets, |s.tickets|);
  }

  lemma {:induction false} SequentialKeptHolding(dev: Device, start: Memory, s: State, t: nat, fault: Fault)
    requires dev.Ok() && Exclusive(s) && OneTurnEach(s) && OwnImages(dev, s) && AsIfSequential(dev, start, s)
    requires |start.input| == dev.inputSize
    requires Enabled(s, Act(t, fault)) && Critical(s.threads[t].pc)
    ensures AsIfSequential(dev, start, ActHolding(dev, s, t, fault))
  {
    var n := |s.tickets| - 1;
    HoldingFrame(dev, s, t, fault);
    if s.threads[t].pc != Releasing {
      var next := ActHolding(dev, s, t, fault);
      InputKeepsItsSize(dev, start, s.tickets, n);
      assert TurnOf(s, t);
      MidTurnKept(dev, MemoryAfter(dev, start, s.tickets, n), s, t, fault);
      SameTurnsSameMemory(dev, start, s.tickets, next.tickets, n);
    }
  }

  // ---------------------------------------------------------------------
  // The replies
  // ---------------------------------------------------------------------

  /** What a thread that has returned may tell its client. */
  ghost predicate Answered(dev: Device, start: Memory, s: State, t: nat)
    requires dev.Ok() && t in s.threads
  {
    var th := s.threads[t];
    th.pc.Returned? ==>
      match th.reply
      case Pending => false
      case BadArguments => th.request.encoded == []
      case Undecodable => th.request.encoded != [] && dev.decode(th.request.encoded).Empty()
      case _ =>
        && th.request.encoded != [] && !dev.decode(th.request.encoded).Empty()
        && th.turn < |s.tickets|
        && Answers(th.reply, OutcomeOf(dev, start, s.tickets, th.turn))
  }

  ghost predicate AllAnswered(dev: Device, start: Memory, s: State)
    requires dev.Ok()
  {
    forall t | t in s.threads :: Answered(dev, start, s, t)
  }

  /** An answer stays right while the turns up to its own stay the same. */
  lemma {:induction false} AnswerOutlivesItsTurn(dev: Device, start: Memory, s: State, next: State, u: nat)
    requires dev.Ok() && u in s.threads && u in next.threads && next.threads[u] == s.threads[u]
    requires Answered(dev, start, s, u)
    requires Ticketed(s.threads[u]) ==>
      && s.threads[u].turn < |s.tickets| && s.threads[u].turn < |next.tickets|
      && forall i | 0 <= i <= s.threads[u].turn :: next.tickets[i] == s.tickets[i]
    ensures Answered(dev, start, next, u)
  {
    if Ticketed(s.threads[u]) {
      SameTurnsSameMemory(dev, start, s.tickets, next.tickets, s.threads[u].turn);
    }
  }

  lemma {:induction false} AnswersKeptAlone(dev: Device, start: Memory, s: State, t: nat)
    requires dev.Ok() && Exclusive(s) && OneTurnEach(s) && OwnImages(dev, s) && AllAnswered(dev, start, s)
    requires Enabled(s, Act(t, NoFault)) && BeforeLock(s.threads[t].pc)
    ensures AllAnswered(dev, start, ActAlone(dev, s, t))
  {
    var next := ActAlone(dev, s, t);
    AloneFrame(dev, s, t);
    assert OwnImage(dev, s.threads[t]);
    forall u | u in next.threads ensures Answered(dev, start, next, u) {
      if u != t {
        assert Answered(dev, start, s, u) && TurnOf(s, u);
        AnswerOutlivesItsTurn(dev, start, s, next, u);
      }
    }
  }

  lemma {:induction false} AnswersKeptHolding(dev: Device, start: Memory, s: State, t: nat, fault: Fault)
    requires dev.Ok() && Exclusive(s) && OneTurnEach(s) && OwnImages(dev, s) && AllAnswered(dev, start, s)
    requires AsIfSequential(dev, start, s)
    requires Enabled(s, Act(t, fault)) && Critical(s.threads[t].pc)
    ensures AllAnswered(dev, start, ActHolding(dev, s, t, fault))
  {
    var next := ActHolding(dev, s, t, fault);
    assert t in next.threads && next.threads == s.threads[t := next.threads[t]] by {
      HoldingFrame(dev, s, t, fault);
    }
    forall u | u in next.threads ensures Answered(dev, start, next, u) {
      if u == t {
        ReleasedIsAnswered(dev, start, s, t, fault);
      } else {
        assert Answered(dev, start, s, u) && TurnOf(s, u) && TurnOf(s, t);
        HoldingKeepsTickets(dev, s, t, fault);
        AnswerOutlivesItsTurn(dev, start, s, next, u);
      }
    }
  }

  lemma {:induction false} ReleasedIsAnswered(dev: Device, start: Memory, s: State, t: nat, fault: Fault)
    requires dev.Ok() && Exclusive(s) && OneTurnEach(s) && OwnImages(dev, s) && AsIfSequential(dev, start, s)
    requires Enabled(s, Act(t, fault)) && Critical(s.threads[t].pc)
    ensures t in ActHolding(dev, s, t, fault).threads
    ensures Answered(dev, start, ActHolding(dev, s, t, fault), t)
  {
    HoldingFrame(dev, s, t, fault);
    if s.threads[t].pc == Releasing {
      assert OwnImage(dev, s.threads[t]) && TurnOf(s, t);
    }
  }

  // ---------------------------------------------------------------------
  // The queue depth
  // ---------------------------------------------------------------------

  /** The threads between `fetch_add` and `fetch_sub`. */
  function Waiters(s: State): set<nat> {
    set t | t in s.threads && Counted(s.threads[t].pc)
  }

  /** The atomic counter wraps at 32 bits; otherwise it is the number of waiters. */
  predicate DepthExact(s: State) {
    s.waiting == |Waiters(s)| % UINT32
  }

  lemma {:induction false} OneMoreWaiter(n: nat)
    ensures (n % UINT32 + 1) % UINT32 == (n + 1) % UINT32
  {
  }

  lemma {:induction false} OneLessWaiter(n: nat)
    requires n > 0
    ensures (n % UINT32 - 1) % UINT32 == (n - 1) % UINT32
  {
  }

  lemma {:induction false} DepthKept(dev: Device, s: State, e: Event)
    requires dev.Ok() && Enabled(s, e) && DepthExact(s)
    ensures DepthExact(Apply(dev, s, e))
  {
    if e.Act? {
      DepthKeptByAct(dev, s, e.thread, e.fault);
    } else {
      assert Waiters(Apply(dev, s, e)) == Waiters(s);
    }
  }

  lemma {:induction false} DepthKeptByAct(dev: Device, s: State, t: nat, fault: Fault)
    requires dev.Ok() && Enabled(s, Act(t, fault)) && DepthExact(s)
    ensures DepthExact(Apply(dev, s, Act(t, fault)))
  {
    DepthOfAct(dev, s, t, fault);
    var next := Apply(dev, s, Act(t, fault));
    DepthAfter(s.threads[t].pc, t, Waiters(s), s.waiting, Waiters(next), next.waiting);
  }

  lemma {:induction false} DepthAfter(pc: Pc, t: nat, before: set<nat>, waiting: nat, after: set<nat>, nextWaiting: nat)
    requires waiting == |before| % UINT32 && (t in before <==> Counted(pc))
    requires after == (if pc == Adding then before + {t} else if pc == Subtracting then before - {t} else before)
    requires nextWaiting == (if pc == Adding then (waiting + 1) % UINT32
                             else if pc == Subtracting then (waiting - 1) % UINT32
                             else waiting)
    ensures nextWaiting == |after| % UINT32
  {
    if pc == Adding {
      assert |after| == |before| + 1;
      OneMoreWaiter(|before|);
    } else if pc == Subtracting {
      assert |after| == |before| - 1;
      OneLessWaiter(|before|);
    }
  }

  lemma {:induction false} DepthOfAct(dev: Device, s: State, t: nat, fault: Fault)
    requires dev.Ok() && Enabled(s, Act(t, fault))
    ensures
      var next := Apply(dev, s, Act(t, fault));
      && next.waiting == (if s.threads[t].pc == Adding then (s.waiting + 1) % UINT32
                          else if s.threads[t].pc == Subtracting then (s.waiting - 1) % UINT32
                          else s.waiting)
      && Waiters(next) == (if s.threads[t].pc == Adding then Waiters(s) + {t}
                           else if s.threads[t].pc == Subtracting then Waiters(s) - {t}
                           else Waiters(s))
  {
    var next := Apply(dev, s, Act(t, fault));
    if BeforeLock(s.threads[t].pc) {
      AloneFrame(dev, s, t);
    } else {
      HoldingFrame(dev, s, t, fault);
    }
    CountedAfter(dev, s, t, fault);
    assert forall u | u in s.threads && u != t :: next.threads[u] == s.threads[u];
  }

  lemma {:induction false} CountedAfter(dev: Device, s: State, t: nat, fault: Fault)
    requires dev.Ok() && Enabled(s, Act(t, fault))
    ensures
      var before, after := s.threads[t].pc, Apply(dev, s, Act(t, fault)).threads[t].pc;
      Counted(after) <==> before == Adding || (Counted(before) && before != Subtracting)
    ensures Apply(dev, s, Act(t, fault)).waiting ==
      (if s.threads[t].pc == Adding then (s.waiting + 1) % UINT32
       else if s.threads[t].pc == Subtracting then (s.waiting - 1) % UINT32
       else s.waiting)
  {
  }
}
