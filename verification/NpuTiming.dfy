/**
  The clock readings of the engine: each request's readings come in order, the turns on
  the NPU do not overlap, and the reported microseconds add up accordingly.
 */
module NpuTiming {
  import opened Npu
  import opened NpuSafety

  /** The readings a thread has taken so far are in order, and none lies in the future. */
  predicate Chain(th: Thread, now: nat) {
    var s := th.stamps;
    match th.pc
    case Entering => true
    case Decoding => s.totalStart <= now
    case Adding => s.totalStart <= s.decodeEnd <= now
    case Queueing => s.totalStart <= s.decodeEnd <= now
    case Locking => s.totalStart <= s.decodeEnd <= s.queueStart <= now
    case Dequeueing => s.totalStart <= s.decodeEnd <= s.queueStart <= now
    case Subtracting => s.totalStart <= s.decodeEnd <= s.queueStart <= s.queueEnd <= now
    case Resizing(_) => s.totalStart <= s.decodeEnd <= s.queueStart <= s.queueEnd <= now
    case Starting => s.totalStart <= s.decodeEnd <= s.queueStart <= s.queueEnd <= now
    case Running => Ordered(s, now)
    case Reading(_) => Ordered(s, now)
    case Ending(_) => Ordered(s, now)
    case Copying => Ordered(s, s.inferenceEnd) && s.inferenceEnd <= now
    case Totalling => Ordered(s, s.inferenceEnd) && s.inferenceEnd <= now
    case Releasing => Timed(th, now)
    case Returned => Timed(th, now)
  }

  predicate Ordered(s: Stamps, now: nat) {
    s.totalStart <= s.decodeEnd <= s.queueStart <= s.queueEnd <= s.inferenceStart <= now
  }

  predicate Timed(th: Thread, now: nat) {
    th.reply.Done? ==>
      && Ordered(th.stamps, th.stamps.inferenceEnd)
      && th.stamps.inferenceEnd <= th.stamps.totalEnd <= now
      && th.reply.timing == TimingOf(th.stamps)
  }

  /** Once a thread knows when its inference started or ended, its ticket says the same. */
  predicate TicketStamped(th: Thread, ticket: Ticket) {
    match th.pc
    case Running => ticket.start == th.stamps.inferenceStart
    case Reading(_) => ticket.start == th.stamps.inferenceStart
    case Ending(_) => ticket.start == th.stamps.inferenceStart
    case Copying => ticket.start == th.stamps.inferenceStart && ticket.end == th.stamps.inferenceEnd
    case Totalling => ticket.start == th.stamps.inferenceStart && ticket.end == th.stamps.inferenceEnd
    case Releasing =>
      th.reply.Done? ==> ticket.start == th.stamps.inferenceStart && ticket.end == th.stamps.inferenceEnd
    case Returned =>
      th.reply.Done? ==> ticket.start == th.stamps.inferenceStart && ticket.end == th.stamps.inferenceEnd
    case _ => true
  }

  /** Turns in the order of the mutex: each ends before the next one starts. */
  ghost predicate Disjoint(tickets: seq<Ticket>, from: nat, now: nat) {
    && (forall i | 0 <= i < |tickets| :: from <= tickets[i].start <= tickets[i].end <= now)
    && (forall i, j | 0 <= i < j < |tickets| :: tickets[i].end <= tickets[j].start)
  }

  ghost predicate TimesKept(s: State, from: nat) {
    && from <= s.now
    && Disjoint(s.tickets, from, s.now)
    && (forall t | t in s.threads :: Chain(s.threads[t], s.now))
    && (forall t | t in s.threads && Ticketed(s.threads[t]) && s.threads[t].turn < |s.tickets| ::
          TicketStamped(s.threads[t], s.tickets[s.threads[t].turn]))
  }

  lemma {:induction false} ChainKeptAlone(dev: Device, s: State, t: nat)
    requires t in s.threads && BeforeLock(s.threads[t].pc) && Chain(s.threads[t], s.now)
    ensures Chain(ActAlone(dev, s, t).threads[t], s.now)
  {
  }

  lemma {:induction false} ChainKeptHolding(dev: Device, s: State, t: nat, fault: Fault)
    requires dev.Ok() && t in s.threads && Critical(s.threads[t].pc) && Chain(s.threads[t], s.now)
    ensures Chain(ActHolding(dev, s, t, fault).threads[t], s.now)
  {
  }

  lemma {:induction false} LastTicketKept(dev: Device, s: State, t: nat, fault: Fault, from: nat)
    requires dev.Ok() && t in s.threads && Critical(s.threads[t].pc) && Chain(s.threads[t], s.now)
    requires s.tickets != [] && TicketStamped(s.threads[t], s.tickets[|s.tickets| - 1])
    requires Disjoint(s.tickets, from, s.now) && from <= s.now
    ensures
      var next := ActHolding(dev, s, t, fault);
      && |next.tickets| == |s.tickets|
      && TicketStamped(next.threads[t], next.tickets[|s.tickets| - 1])
      && Disjoint(next.tickets, from, s.now)
  {
    HoldingKeepsTickets(dev, s, t, fault);
  }

  lemma {:induction false} TimesKeptAlone(dev: Device, s: State, t: nat, from: nat)
    requires dev.Ok() && Exclusive(s) && OneTurnEach(s) && TimesKept(s, from)
    requires Enabled(s, Act(t, NoFault)) && BeforeLock(s.threads[t].pc)
    ensures TimesKept(ActAlone(dev, s, t), from)
  {
    AloneFrame(dev, s, t);
    ChainKeptAlone(dev, s, t);
    var next := ActAlone(dev, s, t);
    forall u | u in next.threads && Ticketed(next.threads[u]) && next.threads[u].turn < |next.tickets|
      ensures TicketStamped(next.threads[u], next.tickets[next.threads[u].turn])
    {
      if u != t {
        assert TurnOf(s, u);
      }
    }
  }

  lemma {:induction false} OtherTicketKept(dev: Device, s: State, t: nat, fault: Fault, u: nat)
    requires dev.Ok() && Exclusive(s) && OneTurnEach(s)
    requires Enabled(s, Act(t, fault)) && Critical(s.threads[t].pc)
    requires u != t && u in s.threads && Ticketed(s.threads[u]) && s.threads[u].turn < |s.tickets|
    requires TicketStamped(s.threads[u], s.tickets[s.threads[u].turn])
    ensures
      var next := ActHolding(dev, s, t, fault);
      && |next.tickets| == |s.tickets|
      && TicketStamped(s.threads[u], next.tickets[s.threads[u].turn])
  {
    assert TurnOf(s, t) && TurnOf(s, u);
    HoldingKeepsTickets(dev, s, t, fault);
  }

  lemma {:induction false} TimesKeptHolding(dev: Device, s: State, t: nat, fault: Fault, from: nat)
    requires dev.Ok() && Exclusive(s) && OneTurnEach(s) && TimesKept(s, from)
    requires Enabled(s, Act(t, fault)) && Critical(s.threads[t].pc)
    ensures TimesKept(ActHolding(dev, s, t, fault), from)
  {
    var next := ActHolding(dev, s, t, fault);
    assert t in next.threads && next.threads == s.threads[t := next.threads[t]] && next.now == s.now by {
      HoldingFrame(dev, s, t, fault);
    }
    assert Chain(next.threads[t], next.now) by {
      ChainKeptHolding(dev, s, t, fault);
    }
    assert TurnOf(s, t);
    LastTicketKept(dev, s, t, fault, from);
    assert next.threads[t].turn == s.threads[t].turn by {
      HoldingFrame(dev, s, t, fault);
    }
    forall u | u in s.threads && u != t && Ticketed(s.threads[u]) && s.threads[u].turn < |s.tickets|
      ensures TicketStamped(s.threads[u], next.tickets[s.threads[u].turn])
    {
      OtherTicketKept(dev, s, t, fault, u);
    }
  }

  lemma {:induction false} TimesKeptByOthers(dev: Device, s: State, e: Event, from: nat)
    requires dev.Ok() && Enabled(s, e) && !e.Act? && TimesKept(s, from)
    ensures TimesKept(Apply(dev, s, e), from)
  {
    var next := Apply(dev, s, e);
    forall t | t in next.threads ensures Chain(next.threads[t], next.now) {
      if t in s.threads {
        assert Chain(s.threads[t], s.now);
      }
    }
  }

  // ---------------------------------------------------------------------
  // Sums of microseconds
  // ---------------------------------------------------------------------

  function TotalUs(tickets: seq<Ticket>, n: nat): nat
    requires n <= |tickets|
  {
    if n == 0 then 0 else TotalUs(tickets, n - 1) + ElapsedUs(tickets[n - 1].start, tickets[n - 1].end)
  }

  lemma {:induction false} TurnsFitInTime(tickets: seq<Ticket>, n: nat, from: nat, now: nat)
    requires Disjoint(tickets, from, now) && n <= |tickets|
    ensures TotalUs(tickets, n) * 1000 <= (if n == 0 then 0 else tickets[n - 1].end - from)
  {
    if n == 0 {
    } else {
      TurnsFitInTime(tickets, n - 1, from, now);
    }
  }

  /** Truncating every stage separately never makes the stages exceed the total. */
  lemma {:induction false} StagesFitInTotal(s: Stamps)
    requires Ordered(s, s.inferenceEnd) && s.inferenceEnd <= s.totalEnd
    ensures
      var timing := TimingOf(s);
      timing.decodeUs + timing.queueUs + timing.inferenceUs <= timing.totalUs
  {
  }
}
