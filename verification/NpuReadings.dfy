/** The times reported to a client are differences of clock readings taken at the right moments. */
module NpuReadings {
  import opened Npu
  import opened NpuProgress
  import opened NpuSafety
  import opened NpuTheorems
  import NpuTiming

  /** The seven clock readings of a request. */
  datatype Reading = TotalStart | DecodeEnd | QueueStart | QueueEnd | InferenceStart | InferenceEnd | TotalEnd

  /** The action that takes the reading. */
  predicate Takes(pc: Pc, x: Reading) {
    match x
    case TotalStart => pc.Entering?
    case DecodeEnd => pc.Decoding?
    case QueueStart => pc.Queueing?
    case QueueEnd => pc.Dequeueing?
    case InferenceStart => pc.Starting?
    case InferenceEnd => pc.Ending?
    case TotalEnd => pc.Totalling?
  }

  function StampOf(stamps: Stamps, x: Reading): nat {
    match x
    case TotalStart => stamps.totalStart
    case DecodeEnd => stamps.decodeEnd
    case QueueStart => stamps.queueStart
    case QueueEnd => stamps.queueEnd
    case InferenceStart => stamps.inferenceStart
    case InferenceEnd => stamps.inferenceEnd
    case TotalEnd => stamps.totalEnd
  }

  /** How far a thread is from returning when it takes the reading. */
  function RankOf(x: Reading): nat {
    match x
    case TotalStart => 15
    case DecodeEnd => 14
    case QueueStart => 12
    case QueueEnd => 10
    case InferenceStart => 7
    case InferenceEnd => 4
    case TotalEnd => 2
  }

  /** The thread is past the reading, on its way to a result or with one. */
  predicate Past(th: Thread, x: Reading) {
    Rank(th.pc) < RankOf(x) && (th.pc.Releasing? || th.pc.Returned? ==> th.reply.Done?)
  }

  /** A thread's action takes the reading or leaves it as it is. */
  ghost predicate ReadsOrKeeps(s: State, next: State, t: nat, x: Reading)
    requires t in s.threads && t in next.threads
  {
    var th, after := s.threads[t], next.threads[t];
    Past(after, x) ==>
      if Takes(th.pc, x) then StampOf(after.stamps, x) == s.now
      else Past(th, x) && StampOf(after.stamps, x) == StampOf(th.stamps, x)
  }

  lemma {:induction false} AloneReads(dev: Device, s: State, t: nat, x: Reading)
    requires t in s.threads && BeforeLock(s.threads[t].pc) && s.threads[t].reply.Pending?
    ensures t in ActAlone(dev, s, t).threads && ReadsOrKeeps(s, ActAlone(dev, s, t), t, x)
  {
  }

  lemma {:induction false} HoldingReads(dev: Device, s: State, t: nat, fault: Fault, x: Reading)
    requires dev.Ok() && t in s.threads && Critical(s.threads[t].pc)
    requires !s.threads[t].pc.Releasing? ==> s.threads[t].reply.Pending?
    ensures t in ActHolding(dev, s, t, fault).threads && ReadsOrKeeps(s, ActHolding(dev, s, t, fault), t, x)
  {
  }

  /** Replies come only with the last actions. */
  ghost predicate Waiting(s: State) {
    forall t | t in s.threads :: s.threads[t].pc.Releasing? || s.threads[t].pc.Returned? || s.threads[t].reply.Pending?
  }

  lemma {:induction false} WaitingKept(dev: Device, s: State, e: Event)
    requires dev.Ok() && Enabled(s, e) && Waiting(s)
    ensures Waiting(Apply(dev, s, e))
  {
    match e
    case Arrive(_, _) =>
    case Tick(_) =>
    case Act(t, fault) =>
      if BeforeLock(s.threads[t].pc) {
        AloneFrame(dev, s, t);
        AloneWaits(dev, s, t);
      } else {
        HoldingFrame(dev, s, t, fault);
        HoldingWaits(dev, s, t, fault);
      }
  }

  lemma {:induction false} AloneWaits(dev: Device, s: State, t: nat)
    requires t in s.threads && BeforeLock(s.threads[t].pc) && s.threads[t].reply.Pending?
    ensures t in ActAlone(dev, s, t).threads
    ensures
      var th := ActAlone(dev, s, t).threads[t];
      th.pc.Releasing? || th.pc.Returned? || th.reply.Pending?
  {
  }

  lemma {:induction false} HoldingWaits(dev: Device, s: State, t: nat, fault: Fault)
    requires dev.Ok() && t in s.threads && Critical(s.threads[t].pc)
    requires s.threads[t].pc.Releasing? || s.threads[t].reply.Pending?
    ensures t in ActHolding(dev, s, t, fault).threads
    ensures
      var th := ActHolding(dev, s, t, fault).threads[t];
      th.pc.Releasing? || th.pc.Returned? || th.reply.Pending?
  {
  }

  lemma {:induction false} RunWaits(dev: Device, r: Run, i: nat)
    requires Legal(dev, r) && i <= |r.events|
    ensures Waiting(r.states[i])
  {
    if i > 0 {
      RunWaits(dev, r, i - 1);
      StepOf(dev, r, i - 1);
      WaitingKept(dev, r.states[i - 1], r.events[i - 1]);
    }
  }

  lemma {:induction false} StepReads(dev: Device, s: State, e: Event, t: nat, x: Reading)
    requires dev.Ok() && Enabled(s, e) && Waiting(s) && t in Apply(dev, s, e).threads
    requires Past(Apply(dev, s, e).threads[t], x)
    ensures t in s.threads
    ensures
      var stamp := StampOf(Apply(dev, s, e).threads[t].stamps, x);
      || (e.Act? && e.thread == t && Takes(s.threads[t].pc, x) && stamp == s.now)
      || (Past(s.threads[t], x) && StampOf(s.threads[t].stamps, x) == stamp)
  {
    match e
    case Arrive(_, _) =>
    case Tick(_) =>
    case Act(u, fault) =>
      if BeforeLock(s.threads[u].pc) {
        AloneFrame(dev, s, u);
        AloneReads(dev, s, u, x);
      } else {
        HoldingFrame(dev, s, u, fault);
        HoldingReads(dev, s, u, fault, x);
      }
  }

  /** A thread that is past a reading took it, from the clock of that moment. */
  lemma {:induction false} ReadingWasTaken(dev: Device, r: Run, i: nat, t: nat, x: Reading) returns (k: nat)
    requires Legal(dev, r) && i <= |r.events| && t in r.states[i].threads && Past(r.states[i].threads[t], x)
    ensures k < i && r.events[k].Act? && r.events[k].thread == t && t in r.states[k].threads
    ensures Takes(r.states[k].threads[t].pc, x)
    ensures StampOf(r.states[i].threads[t].stamps, x) == r.states[k].now
  {
    assert i > 0;
    var s, e := r.states[i - 1], r.events[i - 1];
    assert Enabled(s, e) && r.states[i] == Apply(dev, s, e) by {
      StepOf(dev, r, i - 1);
    }
    RunWaits(dev, r, i - 1);
    StepReads(dev, s, e, t, x);
    if e.Act? && e.thread == t && Takes(s.threads[t].pc, x) {
      k := i - 1;
    } else {
      k := ReadingWasTaken(dev, r, i - 1, t, x);
    }
  }

  /** Whole microseconds between two events of a run. */
  predicate IsElapsed(us: nat, r: Run, from: nat, to: nat) {
    && from < |r.states| && to < |r.states|
    && us * 1000 <= r.states[to].now - r.states[from].now < us * 1000 + 1000
  }

  /** Thread `t` takes its reading `x` at event `k`. */
  predicate TakenAt(r: Run, t: nat, x: Reading, k: nat) {
    && k < |r.events| && k < |r.states| && r.events[k].Act? && r.events[k].thread == t
    && t in r.states[k].threads && Takes(r.states[k].threads[t].pc, x)
  }

  lemma {:induction false} Elapsed(start: nat, end: nat)
    requires start <= end
    ensures ElapsedUs(start, end) * 1000 <= end - start < ElapsedUs(start, end) * 1000 + 1000
  {
  }

  /**
    Every reported time is the whole microseconds between two of the request's own actions: decoding from entry
    to decoded, queueing from counted to locked, inference from just before the NPU runs to just after the
    post-processing, and the total from entry to the end of copying.
   */
  lemma {:induction false} ReportedTimesAreElapsed(dev: Device, r: Run, i: nat, t: nat)
    returns (entry: nat, decoded: nat, counted: nat, locked: nat, started: nat, ended: nat, copied: nat)
    requires Legal(dev, r) && i <= |r.events|
    requires t in r.states[i].threads && r.states[i].threads[t].pc.Returned? && r.states[i].threads[t].reply.Done?
    ensures TakenAt(r, t, TotalStart, entry) && TakenAt(r, t, DecodeEnd, decoded) && TakenAt(r, t, QueueStart, counted)
    ensures TakenAt(r, t, QueueEnd, locked) && TakenAt(r, t, InferenceStart, started)
    ensures TakenAt(r, t, InferenceEnd, ended) && TakenAt(r, t, TotalEnd, copied)
    ensures
      var timing := r.states[i].threads[t].reply.timing;
      && IsElapsed(timing.decodeUs, r, entry, decoded)
      && IsElapsed(timing.queueUs, r, counted, locked)
      && IsElapsed(timing.inferenceUs, r, started, ended)
      && IsElapsed(timing.totalUs, r, entry, copied)
  {
    entry := ReadingWasTaken(dev, r, i, t, TotalStart);
    decoded := ReadingWasTaken(dev, r, i, t, DecodeEnd);
    counted := ReadingWasTaken(dev, r, i, t, QueueStart);
    locked := ReadingWasTaken(dev, r, i, t, QueueEnd);
    started := ReadingWasTaken(dev, r, i, t, InferenceStart);
    ended := ReadingWasTaken(dev, r, i, t, InferenceEnd);
    copied := ReadingWasTaken(dev, r, i, t, TotalEnd);
    var s := r.states[i].threads[t].stamps;
    DoneIsTimed(dev, r, i, t);
    Elapsed(s.totalStart, s.decodeEnd);
    Elapsed(s.queueStart, s.queueEnd);
    Elapsed(s.inferenceStart, s.inferenceEnd);
    Elapsed(s.totalStart, s.totalEnd);
  }

  lemma {:induction false} DoneIsTimed(dev: Device, r: Run, i: nat, t: nat)
    requires Legal(dev, r) && i <= |r.events|
    requires t in r.states[i].threads && r.states[i].threads[t].pc.Returned? && r.states[i].threads[t].reply.Done?
    ensures
      var th := r.states[i].threads[t];
      && th.reply.timing == TimingOf(th.stamps)
      && th.stamps.totalStart <= th.stamps.decodeEnd <= th.stamps.queueStart <= th.stamps.queueEnd
      && th.stamps.queueEnd <= th.stamps.inferenceStart <= th.stamps.inferenceEnd <= th.stamps.totalEnd
  {
    RunKeepsInv(dev, r, i);
    assert NpuTiming.Chain(r.states[i].threads[t], r.states[i].now);
  }
}
