/**
  A queue of capacity one that is meant to hold the latest item. Producers run a
  three-step put (try, make room, try again) and may be interrupted between the
  steps by other producers, by consumers and by whoever clears the queue.
 */
module LatestSlot {
  import opened Wrappers

  /** Where a producer is inside its put. */
  datatype Phase<T> =
    | Idle
    | FirstPut(item: T)
    | MakeRoom(item: T)
    | SecondPut(item: T)
    | Raised(item: T)

  datatype Fate = Consumed | Displaced | Cleared

  datatype Leaving<T> = Leaving(item: T, fate: Fate)

  /**
    The queue, the producers, and two histories: every item ever put, in order, and every
    item that left, in order, with the way it left.
   */
  datatype State<T> = State(content: seq<T>, producers: map<nat, Phase<T>>,
                            put: seq<T>, left: seq<Leaving<T>>)

  datatype Event<T> =
    | Begin(p: nat, item: T)
    | Advance(p: nat)
    | Take(fate: Fate)

  function PhaseOf<T>(s: State<T>, p: nat): Phase<T> {
    if p in s.producers then s.producers[p] else Idle
  }

  predicate Enabled<T>(s: State<T>, e: Event<T>) {
    match e
    case Begin(p, _) => PhaseOf(s, p).Idle?
    case Advance(p) => !PhaseOf(s, p).Idle?
    case Take(fate) => fate != Displaced
  }

  function Put<T>(s: State<T>, p: nat, item: T): State<T> {
    s.(content := s.content + [item], put := s.put + [item], producers := s.producers[p := Idle])
  }

  function Remove<T>(s: State<T>, fate: Fate): State<T>
    requires s.content != []
  {
    s.(content := s.content[1..], left := s.left + [Leaving(s.content[0], fate)])
  }

  /** A full queue refuses `put_nowait`, an empty one refuses `get_nowait`; both are atomic. */
  function Apply<T>(s: State<T>, e: Event<T>): State<T>
    requires Enabled(s, e)
  {
    match e
    case Begin(p, item) => s.(producers := s.producers[p := FirstPut(item)])
    case Take(fate) => if s.content == [] then s else Remove(s, fate)
    case Advance(p) =>
      match PhaseOf(s, p)
      case FirstPut(item) =>
        if s.content == [] then Put(s, p, item) else s.(producers := s.producers[p := MakeRoom(item)])
      case MakeRoom(item) =>
        var emptied := if s.content == [] then s else Remove(s, Displaced);
        emptied.(producers := s.producers[p := SecondPut(item)])
      case SecondPut(item) =>
        if s.content == [] then Put(s, p, item) else s.(producers := s.producers[p := Raised(item)])
      case Raised(_) => s.(producers := s.producers[p := Idle])
  }

  // ---------------------------------------------------------------------
  // What every interleaving keeps
  // ---------------------------------------------------------------------

  ghost predicate Empty<T>(s: State<T>) {
    s.content == [] && s.producers == map[] && s.put == [] && s.left == []
  }

  /** The item at each place of the put history: it left, or it is the one in the queue. */
  ghost predicate Conserved<T>(s: State<T>) {
    && |s.content| <= 1
    && |s.put| == |s.left| + |s.content|
    && (forall i | 0 <= i < |s.left| :: s.left[i].item == s.put[i])
    && (s.content != [] ==> s.content[0] == s.put[|s.left|])
  }

  lemma {:induction false} ConservedKept<T>(s: State<T>, e: Event<T>)
    requires Enabled(s, e) && Conserved(s)
    ensures Conserved(Apply(s, e))
  {
  }

  datatype Run<T> = Run(events: seq<Event<T>>, states: seq<State<T>>)

  ghost predicate StepHolds<T>(r: Run<T>, i: nat)
    requires |r.states| == |r.events| + 1 && i < |r.events|
  {
    Enabled(r.states[i], r.events[i]) && r.states[i + 1] == Apply(r.states[i], r.events[i])
  }

  ghost predicate Legal<T>(r: Run<T>) {
    && |r.states| == |r.events| + 1
    && Empty(r.states[0])
    && forall i: nat | i < |r.events| :: StepHolds(r, i)
  }

  lemma {:induction false} StepOf<T>(r: Run<T>, i: nat)
    requires Legal(r) && i < |r.events|
    ensures Enabled(r.states[i], r.events[i]) && r.states[i + 1] == Apply(r.states[i], r.events[i])
  {
    assert StepHolds(r, i);
  }

  /**
    Capacity and conservation: at most one item is queued, and every item ever put has exactly one
    place: it left, once and in the order of the puts, or it is still in the queue.
   */
  lemma {:induction false} NothingIsLostOrDoubled<T>(r: Run<T>, i: nat)
    requires Legal(r) && i <= |r.events|
    ensures Conserved(r.states[i])
  {
    if i == 0 {
    } else {
      NothingIsLostOrDoubled(r, i - 1);
      StepOf(r, i - 1);
      ConservedKept(r.states[i - 1], r.events[i - 1]);
    }
  }

  /** What happens at a step: nothing leaves, or the queued item does, displaced by a put or as it was taken. */
  lemma {:induction false} FatesTellWhoTook<T>(r: Run<T>, i: nat)
    requires Legal(r) && i < |r.events|
    ensures
      var s, next := r.states[i], r.states[i + 1];
      match r.events[i]
      case Begin(_, _) => next.content == s.content && next.left == s.left && next.put == s.put
      case Take(fate) =>
        && next.content == [] && next.put == s.put
        && next.left == s.left + (if s.content == [] then [] else [Leaving(s.content[0], fate)])
      case Advance(p) =>
        && (next.left == s.left || (s.content != [] && next.left == s.left + [Leaving(s.content[0], Displaced)]))
        && (next.put == s.put || next.put == s.put + next.content)
        && (next.left != s.left ==> next.content == [] && PhaseOf(s, p).MakeRoom? && next.put == s.put)
  {
    StepOf(r, i);
    NothingIsLostOrDoubled(r, i);
  }

  // ---------------------------------------------------------------------
  // When the second try fails
  // ---------------------------------------------------------------------

  /** At most one item is put or leaves. */
  ghost predicate OneMove<T>(a: State<T>, b: State<T>) {
    && |a.put| <= |b.put| && |a.left| <= |b.left|
    && (|b.put| - |a.put|) + (|b.left| - |a.left|) <= 1
  }

  /** The queue as it goes through some larger system's states. */
  ghost predicate Trace<T>(states: seq<State<T>>) {
    && (forall k | 0 <= k < |states| :: Conserved(states[k]))
    && (forall k, l | 0 <= k < |states| && l == k + 1 < |states| :: OneMove(states[k], states[l]))
  }

  /** An item is put at step `k`, and nothing has left the queue from then until `j`. */
  ghost predicate PutAndKept<T>(states: seq<State<T>>, k: nat, j: nat)
    requires k < j < |states|
  {
    |states[k + 1].put| == |states[k].put| + 1 && |states[j].left| == |states[k + 1].left|
  }

  lemma {:induction false} TraceGrows<T>(states: seq<State<T>>, i: nat, j: nat)
    requires Trace(states) && i <= j < |states|
    ensures |states[i].put| <= |states[j].put| && |states[i].left| <= |states[j].left|
    decreases j - i
  {
    if i < j {
      TraceGrows(states, i, j - 1);
      assert OneMove(states[j - 1], states[j]);
    }
  }

  /** A queue that was empty is full if and only if an item has been put since and was kept. */
  lemma {:induction false} FullExactlyWhenPutAndKept<T>(states: seq<State<T>>, i: nat, j: nat)
    requires Trace(states) && i <= j < |states| && states[i].content == []
    ensures states[j].content != [] <==> exists k: nat | i <= k < j :: PutAndKept(states, k, j)
    decreases j - i
  {
    if states[j].content != [] {
      var k := LastPut(states, i, j);
    }
    forall k: nat | i <= k < j && PutAndKept(states, k, j)
      ensures states[j].content != []
    {
      assert OneMove(states[k], states[k + 1]);
      TraceGrows(states, k + 1, j);
    }
  }

  lemma {:induction false} LastPut<T>(states: seq<State<T>>, i: nat, j: nat) returns (k: nat)
    requires Trace(states) && i <= j < |states| && states[i].content == [] && states[j].content != []
    ensures i <= k < j && PutAndKept(states, k, j)
    decreases j - i
  {
    assert OneMove(states[j - 1], states[j]);
    if states[j - 1].content == [] {
      k := j - 1;
    } else {
      k := LastPut(states, i, j - 1);
    }
  }

  predicate PutsBy<T>(s: State<T>, e: Event<T>, q: nat) {
    && e.Advance? && e.p == q && s.content == []
    && (PhaseOf(s, q).FirstPut? || PhaseOf(s, q).SecondPut?)
  }

  /** Only a producer that advances puts, and it puts one item. */
  lemma {:induction false} PutCounts<T>(s: State<T>, e: Event<T>)
    requires Enabled(s, e)
    ensures |Apply(s, e).put| == |s.put| + (if e.Advance? && PutsBy(s, e, e.p) then 1 else 0)
    ensures OneMove(s, Apply(s, e))
  {
  }

  lemma {:induction false} RunIsTrace<T>(r: Run<T>)
    requires Legal(r)
    ensures Trace(r.states)
  {
    forall k | 0 <= k < |r.states| ensures Conserved(r.states[k]) {
      NothingIsLostOrDoubled(r, k);
    }
    forall k, l | 0 <= k < |r.states| && l == k + 1 < |r.states| ensures OneMove(r.states[k], r.states[l]) {
      StepOf(r, k);
      PutCounts(r.states[k], r.events[k]);
    }
  }

  /** Another producer puts at step `k`, and its item is still queued at `j`. */
  ghost predicate OvertakenAt<T>(r: Run<T>, p: nat, k: nat, j: nat)
    requires Legal(r) && k < j < |r.events|
  {
    && r.events[k].Advance? && r.events[k].p != p && PutsBy(r.states[k], r.events[k], r.events[k].p)
    && |r.states[j].left| == |r.states[k + 1].left|
  }

  /**
    A producer's second try is refused if and only if another producer has put an item since it made
    room, and nothing has been taken from the queue after that.
   */
  lemma {:induction false} RefusedExactlyWhenOvertaken<T>(r: Run<T>, p: nat, i: nat, j: nat)
    requires Legal(r) && i < j < |r.events|
    requires r.events[i] == Advance(p) && PhaseOf(r.states[i], p).MakeRoom?
    requires r.events[j] == Advance(p)
    requires forall l | i < l < j :: r.events[l] != Advance(p)
    ensures PhaseOf(r.states[j], p).SecondPut?
    ensures PhaseOf(r.states[j + 1], p).Raised? <==> exists k: nat | i < k < j :: OvertakenAt(r, p, k, j)
  {
    StepOf(r, i);
    StepOf(r, j);
    NothingIsLostOrDoubled(r, i);
    PhaseWaits(r, p, i + 1, j);
    RunIsTrace(r);
    FullExactlyWhenPutAndKept(r.states, i + 1, j);
    forall k: nat | i < k < j ensures PutAndKept(r.states, k, j) <==> OvertakenAt(r, p, k, j) {
      StepOf(r, k);
      PutCounts(r.states[k], r.events[k]);
    }
  }

  lemma {:induction false} PhaseWaits<T>(r: Run<T>, p: nat, i: nat, j: nat)
    requires Legal(r) && i <= j <= |r.events| && !PhaseOf(r.states[i], p).Idle?
    requires forall l | i <= l < j :: r.events[l] != Advance(p)
    ensures PhaseOf(r.states[j], p) == PhaseOf(r.states[i], p)
    decreases j - i
  {
    if i < j {
      PhaseWaits(r, p, i, j - 1);
      StepOf(r, j - 1);
    }
  }

  // ---------------------------------------------------------------------
  // A single producer
  // ---------------------------------------------------------------------

  /** Only `p` ever begins a put. */
  ghost predicate SoleProducer<T>(r: Run<T>, p: nat) {
    forall i | 0 <= i < |r.events| && r.events[i].Begin? :: r.events[i].p == p
  }

  /** The item of a put in progress. */
  function InHand<T>(phase: Phase<T>): seq<T> {
    match phase
    case Idle => []
    case FirstPut(item) => [item]
    case MakeRoom(item) => [item]
    case SecondPut(item) => [item]
    case Raised(item) => [item]
  }

  /** The items of the puts begun in calls `0..i`. */
  function Begun<T>(events: seq<Event<T>>, i: nat): seq<T>
    requires i <= |events|
  {
    if i == 0 then []
    else Begun(events, i - 1) + (if events[i - 1].Begin? then [events[i - 1].item] else [])
  }

  ghost predicate SoleInv<T>(s: State<T>, p: nat, begun: seq<T>) {
    && (forall q | q in s.producers :: q == p)
    && !PhaseOf(s, p).Raised?
    && (PhaseOf(s, p).SecondPut? ==> s.content == [])
    && begun == s.put + InHand(PhaseOf(s, p))
    && (!PhaseOf(s, p).SecondPut? && s.left != [] && |s.left| == |s.put| ==>
          s.left[|s.left| - 1].fate != Displaced)
  }

  lemma {:induction false} SoleInvKept<T>(s: State<T>, e: Event<T>, p: nat, begun: seq<T>)
    requires Enabled(s, e) && Conserved(s) && SoleInv(s, p, begun) && (e.Begin? ==> e.p == p)
    ensures SoleInv(Apply(s, e), p, begun + (if e.Begin? then [e.item] else []))
  {
    if e.Advance? {
      assert e.p == p;
    }
  }

  /**
    With a single producer, whatever consumers do between its steps, the second try never finds the
    queue full, every begun item is put, and the newest one put is in the queue or was taken by
    a consumer or a clear; only starting to put the next one can displace it.
   */
  lemma {:induction false} SoleProducerNeverRefused<T>(r: Run<T>, p: nat, i: nat)
    requires Legal(r) && SoleProducer(r, p) && i <= |r.events|
    ensures SoleInv(r.states[i], p, Begun(r.events, i))
  {
    if i == 0 {
    } else {
      SoleProducerNeverRefused(r, p, i - 1);
      NothingIsLostOrDoubled(r, i - 1);
      StepOf(r, i - 1);
      SoleInvKept(r.states[i - 1], r.events[i - 1], p, Begun(r.events, i - 1));
    }
  }

  /** With two producers the second try can fail: the other one puts right after room was made. */
  lemma {:induction false} TwoProducersCanRefuse() returns (r: Run<nat>)
    ensures Legal(r) && exists i: nat :: i < |r.states| && PhaseOf(r.states[i], 0).Raised?
  {
    var s0: State<nat> := State([], map[], [], []);
    var events := [Begin(0, 1), Advance(0), Begin(0, 2), Advance(0), Advance(0), Begin(1, 3), Advance(1), Advance(0)];
    var s1 := Apply(s0, Begin(0, 1));
    var s2 := Apply(s1, Advance(0));
    var s3 := Apply(s2, Begin(0, 2));
    var s4 := Apply(s3, Advance(0));
    var s5 := Apply(s4, Advance(0));
    var s6 := Apply(s5, Begin(1, 3));
    var s7 := Apply(s6, Advance(1));
    var s8 := Apply(s7, Advance(0));
    r := Run(events, [s0, s1, s2, s3, s4, s5, s6, s7, s8]);
    forall i: nat | i < |events| ensures StepHolds(r, i) {
    }
    assert PhaseOf(r.states[8], 0).Raised?;
  }

  // ---------------------------------------------------------------------
  // The queue as one thread uses it when nobody interrupts
  // ---------------------------------------------------------------------

  class LatestQueue<T> {
    var content: seq<T>

    ghost predicate Valid()
      reads this
    {
      |content| <= 1
    }

    constructor ()
      ensures Valid() && content == []
    {
      content := [];
    }

    method PutNowait(item: T) returns (full: bool)
      requires Valid()
      modifies this
      ensures Valid()
      ensures full == (old(content) != [])
      ensures content == if full then old(content) else [item]
    {
      full := |content| >= 1;
      if !full {
        content := content + [item];
      }
    }

    method GetNowait() returns (item: Option<T>)
      requires Valid()
      modifies this
      ensures Valid() && content == []
      ensures item == if old(content) == [] then None else Some(old(content)[0])
    {
      if content == [] {
        return None;
      }
      item := Some(content[0]);
      content := content[1..];
    }

    /** Uninterrupted, the put always ends with the new item in the queue and never raises. */
    method PutLatest(item: T) returns (displaced: Option<T>, raised: bool)
      requires Valid()
      modifies this
      ensures Valid() && !raised && content == [item]
      ensures displaced == if old(content) == [] then None else Some(old(content)[0])
    {
      displaced := None;
      raised := false;
      var full := PutNowait(item);
      if full {
        displaced := GetNowait();
        raised := PutNowait(item);
      }
    }

    method Clear() returns (cleared: seq<T>)
      requires Valid()
      modifies this
      ensures Valid() && content == [] && cleared == old(content)
    {
      cleared := [];
      var more := true;
      while more
        invariant Valid() && cleared + content == old(content)
        invariant !more ==> content == []
        decreases more, |content|
      {
        var item := GetNowait();
        match item
        case None => more := false;
        case Some(value) => cleared := cleared + [value];
      }
    }
  }
}
