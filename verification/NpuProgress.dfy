/**
  The engine never gets stuck: from every reachable state the threads can all go on until they return.
 */
module NpuProgress {
  import opened Npu
  import opened NpuSafety
  import opened NpuTheorems

  function Last(r: Run): State
    requires r.states != []
  {
    r.states[|r.states| - 1]
  }

  /** The first run goes on as the second one. */
  predicate Continues(r: Run, longer: Run) {
    r.events <= longer.events && r.states <= longer.states
  }

  lemma {:induction false} Extend(dev: Device, r: Run, e: Event) returns (longer: Run)
    requires Legal(dev, r) && Enabled(Last(r), e)
    ensures Legal(dev, longer) && Last(longer) == Apply(dev, Last(r), e) && Continues(r, longer)
  {
    longer := Run(r.events + [e], r.states + [Apply(dev, Last(r), e)]);
    forall i: nat | i < |longer.events| ensures StepHolds(dev, longer, i) {
      if i < |r.events| {
        StepOf(dev, r, i);
      }
    }
  }

  /** How far a thread is from returning. */
  function Rank(pc: Pc): nat {
    match pc
    case Entering => 15
    case Decoding => 14
    case Adding => 13
    case Queueing => 12
    case Locking => 11
    case Dequeueing => 10
    case Subtracting => 9
    case Resizing(_) => 8
    case Starting => 7
    case Running => 6
    case Reading(_) => 5
    case Ending(_) => 4
    case Copying => 3
    case Totalling => 2
    case Releasing => 1
    case Returned => 0
  }

  /** The cells a thread has yet to write or read in its present loop. */
  function CellsLeft(memory: Memory, pc: Pc): nat {
    match pc
    case Resizing(k) => if k < |memory.input| then |memory.input| - k else 0
    case Reading(got) => if |got| < |memory.output| then |memory.output| - |got| else 0
    case _ => 0
  }

  /** Nobody else holds the mutex. */
  predicate MayGoOn(s: State, t: nat) {
    t in s.threads && (s.holder == Free || s.holder == HeldBy(t))
  }

  /** The thread is nearer to its return, nobody else holds the mutex, and no other thread has changed. */
  ghost predicate Advanced(s: State, next: State, t: nat)
    requires t in s.threads
  {
    && MayGoOn(next, t) && next.threads == s.threads[t := next.threads[t]]
    && (next.threads[t].pc == Returned ==> next.holder == Free)
    && (Rank(next.threads[t].pc) < Rank(s.threads[t].pc)
        || (Rank(next.threads[t].pc) == Rank(s.threads[t].pc)
            && CellsLeft(next.memory, next.threads[t].pc) < CellsLeft(s.memory, s.threads[t].pc)))
  }

  lemma {:induction false} AloneAdvances(dev: Device, s: State, t: nat)
    requires MayGoOn(s, t) && BeforeLock(s.threads[t].pc) && s.holder == Free
    ensures Advanced(s, ActAlone(dev, s, t), t)
  {
  }

  lemma {:induction false} HoldingAdvances(dev: Device, s: State, t: nat)
    requires dev.Ok() && MayGoOn(s, t) && Critical(s.threads[t].pc)
    ensures Advanced(s, ActHolding(dev, s, t, NoFault), t)
  {
  }

  /** Its next action is enabled and brings it nearer to its return. */
  lemma {:induction false} ActAdvances(dev: Device, s: State, t: nat)
    requires dev.Ok() && Exclusive(s) && MayGoOn(s, t) && s.threads[t].pc != Returned
    ensures Enabled(s, Act(t, NoFault)) && Advanced(s, Apply(dev, s, Act(t, NoFault)), t)
  {
    if BeforeLock(s.threads[t].pc) {
      AloneAdvances(dev, s, t);
    } else {
      HoldingAdvances(dev, s, t);
    }
  }

  lemma {:induction false} ThreadCanReturn(dev: Device, r: Run, t: nat) returns (longer: Run)
    requires Legal(dev, r) && MayGoOn(Last(r), t) && Last(r).threads[t].pc != Returned
    ensures Legal(dev, longer) && Continues(r, longer)
    ensures t in Last(longer).threads && Last(longer).threads[t].pc == Returned && Last(longer).holder == Free
    ensures Last(longer).threads == Last(r).threads[t := Last(longer).threads[t]]
    decreases Rank(Last(r).threads[t].pc), CellsLeft(Last(r).memory, Last(r).threads[t].pc)
  {
    assert Exclusive(Last(r)) by {
      RunKeepsInv(dev, r, |r.events|);
    }
    ActAdvances(dev, Last(r), t);
    longer := Extend(dev, r, Act(t, NoFault));
    if Last(longer).threads[t].pc != Returned {
      longer := ThreadCanReturn(dev, longer, t);
    }
  }

  /** The requests in progress. */
  function InProgress(s: State): set<nat> {
    set t | t in s.threads && s.threads[t].pc != Returned
  }

  /** A thread that nothing keeps from going on, as long as a request is in progress. */
  lemma {:induction false} SomeThreadMayGoOn(dev: Device, r: Run) returns (t: nat)
    requires Legal(dev, r) && InProgress(Last(r)) != {}
    ensures t in InProgress(Last(r)) && MayGoOn(Last(r), t)
  {
    var s := Last(r);
    RunKeepsInv(dev, r, |r.events|);
    if s.holder.HeldBy? {
      t := s.holder.thread;
    } else {
      t :| t in InProgress(s);
    }
  }

  /** Freedom from deadlock: every run can go on, without new requests, until all requests have returned. */
  lemma {:induction false} AllRequestsCanReturn(dev: Device, r: Run) returns (longer: Run)
    requires Legal(dev, r)
    ensures Legal(dev, longer) && Continues(r, longer)
    ensures Last(longer).threads.Keys == Last(r).threads.Keys && InProgress(Last(longer)) == {}
    decreases |InProgress(Last(r))|
  {
    longer := r;
    if InProgress(Last(r)) != {} {
      var t := SomeThreadMayGoOn(dev, r);
      longer := ThreadCanReturn(dev, r, t);
      assert InProgress(Last(longer)) == InProgress(Last(r)) - {t};
      longer := AllRequestsCanReturn(dev, longer);
    }
  }
}
