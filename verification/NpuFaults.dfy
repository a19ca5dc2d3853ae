/** A request fails exactly when the NPU or the post-processing failed for it. */
module NpuFaults {
  import opened Npu
  import opened NpuSafety
  import opened NpuReadings
  import NpuTheorems

  /** The NPU fails while it runs for the thread, or the post-processing does after it has read its output. */
  predicate FaultyAct(s: State, t: nat, fault: Fault)
    requires t in s.threads
  {
    match s.threads[t].pc
    case Running => fault.RunFault?
    case Reading(got) => |got| >= |s.memory.output| && fault == PostFault
    case _ => false
  }

  /** Event `k` is such a failure. */
  predicate FaultAt(r: Run, t: nat, k: nat) {
    && k < |r.events| && k < |r.states| && r.events[k].Act? && r.events[k].thread == t
    && t in r.states[k].threads && FaultyAct(r.states[k], t, r.events[k].fault)
  }

  /** The thread is going to report a failure, or has. */
  predicate Failing(th: Thread) {
    th.pc == Ending(false) || ((th.pc.Releasing? || th.pc.Returned?) && th.reply.Failed?)
  }

  lemma {:induction false} AloneFails(dev: Device, s: State, t: nat)
    requires t in s.threads && BeforeLock(s.threads[t].pc) && s.threads[t].reply.Pending?
    ensures t in ActAlone(dev, s, t).threads && !Failing(ActAlone(dev, s, t).threads[t])
  {
  }

  lemma {:induction false} HoldingFails(dev: Device, s: State, t: nat, fault: Fault)
    requires dev.Ok() && t in s.threads && Critical(s.threads[t].pc)
    requires s.threads[t].pc.Releasing? || s.threads[t].reply.Pending?
    ensures t in ActHolding(dev, s, t, fault).threads
    ensures Failing(ActHolding(dev, s, t, fault).threads[t]) <==> Failing(s.threads[t]) || FaultyAct(s, t, fault)
  {
  }

  lemma {:induction false} StepFails(dev: Device, s: State, e: Event, t: nat)
    requires dev.Ok() && Enabled(s, e) && Waiting(s) && t in Apply(dev, s, e).threads
    ensures Failing(Apply(dev, s, e).threads[t]) <==>
      t in s.threads && (Failing(s.threads[t]) || (e.Act? && e.thread == t && FaultyAct(s, t, e.fault)))
  {
    match e
    case Arrive(_, _) =>
    case Tick(_) =>
    case Act(u, fault) =>
      if BeforeLock(s.threads[u].pc) {
        AloneFrame(dev, s, u);
        AloneFails(dev, s, u);
      } else {
        HoldingFrame(dev, s, u, fault);
        HoldingFails(dev, s, u, fault);
      }
  }

  lemma {:induction false} FailsAt(dev: Device, r: Run, i: nat, t: nat)
    requires Legal(dev, r) && i < |r.events| && t in r.states[i + 1].threads
    ensures Failing(r.states[i + 1].threads[t]) <==>
      (t in r.states[i].threads && Failing(r.states[i].threads[t])) || FaultAt(r, t, i)
  {
    StepOf(dev, r, i);
    RunWaits(dev, r, i);
    StepFails(dev, r.states[i], r.events[i], t);
  }

  lemma {:induction false} FailingSinceFault(dev: Device, r: Run, i: nat, t: nat)
    requires Legal(dev, r) && i <= |r.events| && t in r.states[i].threads
    ensures Failing(r.states[i].threads[t]) <==> exists k: nat | k < i :: FaultAt(r, t, k)
  {
    if i > 0 {
      FailsAt(dev, r, i - 1, t);
      if t in r.states[i - 1].threads {
        FailingSinceFault(dev, r, i - 1, t);
      } else {
        NoFaultBefore(dev, r, i - 1, t);
      }
    }
  }

  lemma {:induction false} NoFaultBefore(dev: Device, r: Run, i: nat, t: nat)
    requires Legal(dev, r) && i < |r.events| && t !in r.states[i].threads
    ensures forall k: nat | k <= i :: !FaultAt(r, t, k)
  {
    if i > 0 {
      StepOf(dev, r, i - 1);
      if t in r.states[i - 1].threads {
        ThreadsStay(dev, r.states[i - 1], r.events[i - 1], t);
        assert false;
      }
      NoFaultBefore(dev, r, i - 1, t);
    }
  }

  lemma {:induction false} ThreadsStay(dev: Device, s: State, e: Event, t: nat)
    requires dev.Ok() && Enabled(s, e) && t in s.threads
    ensures t in Apply(dev, s, e).threads
  {
    if e.Act? {
      if BeforeLock(s.threads[e.thread].pc) {
        AloneFrame(dev, s, e.thread);
      } else {
        HoldingFrame(dev, s, e.thread, e.fault);
      }
    }
  }

  /** A returned request reports a failure if and only if the NPU or the post-processing failed for it. */
  lemma {:induction false} FailsExactlyOnFault(dev: Device, r: Run, i: nat, t: nat)
    requires Legal(dev, r) && i <= |r.events|
    requires t in r.states[i].threads && r.states[i].threads[t].pc.Returned?
    ensures r.states[i].threads[t].reply.Failed? <==> exists k: nat | k < i :: FaultAt(r, t, k)
    ensures
      var th := r.states[i].threads[t];
      th.reply.Done? <==>
        && th.request.encoded != [] && !dev.decode(th.request.encoded).Empty()
        && forall k: nat | k < i :: !FaultAt(r, t, k)
  {
    FailingSinceFault(dev, r, i, t);
    NpuTheorems.RefusalsAreExact(dev, r, i, t);
    NpuTheorems.RunKeepsInv(dev, r, i);
    assert Answered(dev, r.states[0].memory, r.states[i], t);
  }
}
