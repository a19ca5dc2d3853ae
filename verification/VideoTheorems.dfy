/**
  The results about whole runs of the video pipeline, with any number of stale workers and
  any interleaving.
 */
module VideoTheorems {
  import Slot = LatestSlot
  import opened VideoPipeline
  import opened VideoSafety

  ghost predicate Inv(s: State) {
    && Tokens(s) && Slots(s) && PutsInOrder(s) && Consumption(s) && ResultsInOrder(s) && ResultsPolled(s)
    && (forall g | g in s.captures :: LateOk(s.captures[g], g in s.stopped))
  }

  // ---------------------------------------------------------------------
  // After the stop flag
  // ---------------------------------------------------------------------

  /** How many puts a capture worker can have made since its stop flag was set. */
  predicate LateOk(c: Capture, isStopped: bool) {
    && c.lateVideo <= 1 && c.lateInference <= 1
    && (c.lateVideo > 0 || c.lateInference > 0 ==> isStopped)
    && (c.pc == Opening || c.pc == Reading || c.pc == PuttingVideo ==> c.lateVideo == 0 && c.lateInference == 0)
    && (c.pc == PuttingInference ==> c.lateInference == 0)
  }

  lemma {:induction false} LateKeptByCapture(s: State, g: nat, outcome: Outcome)
    requires Enabled(s, CaptureStep(g, outcome)) && LateOk(s.captures[g], g in s.stopped)
    ensures
      var next := StepCapture(s, g, outcome);
      && s.stopped <= next.stopped <= s.stopped + {g}
      && LateOk(next.captures[g], g in next.stopped)
  {
    match s.captures[g].pc
    case PuttingVideo =>
    case PuttingInference =>
    case _ =>
  }

  lemma {:induction false} LateKept(s: State, e: Event)
    requires Enabled(s, e) && forall g | g in s.captures :: LateOk(s.captures[g], g in s.stopped)
    ensures
      var next := Apply(s, e);
      forall g | g in next.captures :: LateOk(next.captures[g], g in next.stopped)
  {
    match e
    case CaptureStep(g, outcome) =>
      CaptureFrame(s, g, outcome);
      LateKeptByCapture(s, g, outcome);
    case InferenceStep(g, outcome) =>
      InferenceFrame(s, g, outcome);
    case _ =>
      GuiFrame(s, e);
      assert s.stopped <= Apply(s, e).stopped;
  }

  // ---------------------------------------------------------------------
  // The invariant of every run
  // ---------------------------------------------------------------------

  lemma {:induction false} InitialInv()
    ensures Inv(INITIAL)
  {
    forall g ensures InPut(INITIAL, g) {
    }
  }

  lemma {:induction false} InvKept(s: State, e: Event)
    requires Enabled(s, e) && Inv(s)
    ensures Inv(Apply(s, e))
  {
    TokensKept(s, e);
    SlotsKept(s, e);
    PutsInOrderKept(s, e);
    ConsumptionKept(s, e);
    ResultsPolledKept(s, e);
    LateKept(s, e);
    match e
    case CaptureStep(g, outcome) => ResultsKeptByCapture(s, g, outcome);
    case InferenceStep(g, outcome) => ResultsKeptByInference(s, g, outcome);
    case _ => ResultsKeptByGui(s, e);
  }

  /** The invariant in state `i` of a run. */
  ghost predicate InvAt(r: Run, i: nat) {
    i < |r.states| && Inv(r.states[i])
  }

  lemma {:induction false} RunKeepsInv(r: Run, i: nat)
    requires Legal(r) && i <= |r.events|
    ensures Inv(r.states[i])
  {
    assert InvAt(r, i) by {
      InvAtStart(r);
      InvFrom(r, 0, i);
    }
  }

  lemma {:induction false} InvAtStart(r: Run)
    requires Legal(r)
    ensures InvAt(r, 0)
  {
    InitialInv();
  }

  lemma {:induction false} InvFrom(r: Run, from: nat, i: nat)
    requires Legal(r) && from <= i <= |r.events| && InvAt(r, from)
    ensures InvAt(r, i)
    decreases i - from
  {
    if from < i {
      var next := from + 1;
      assert InvAt(r, next) by {
        InvStep(r, from, next);
      }
      InvFrom(r, next, i);
    }
  }

  lemma {:induction false} InvStep(r: Run, i: nat, j: nat)
    requires Legal(r) && i < |r.events| && j == i + 1 && InvAt(r, i)
    ensures InvAt(r, j)
  {
    var s, e := r.states[i], r.events[i];
    assert Enabled(s, e) && r.states[j] == Apply(s, e) by {
      StepOf(r, i);
    }
    InvKept(s, e);
  }

  /** After its stop flag is set a capture worker puts at most one more frame in each queue. */
  lemma {:induction false} AtMostOneLatePut(r: Run, i: nat, g: nat)
    requires Legal(r) && i <= |r.events| && g in r.states[i].captures
    ensures r.states[i].captures[g].lateVideo <= 1 && r.states[i].captures[g].lateInference <= 1
  {
    RunKeepsInv(r, i);
  }

  // ---------------------------------------------------------------------
  // Ordered sub-sampling
  // ---------------------------------------------------------------------

  ghost predicate IncreasingPerVideo(list: seq<Placed>) {
    forall k, l | 0 <= k < l < |list| && list[k].frame.generation == list[l].frame.generation ::
      list[k].frame.number < list[l].frame.number
  }

  lemma {:induction false} ConsumedIsIncreasing(list: seq<Placed>, slot: Slot.State<Frame>)
    requires Slot.Conserved(slot) && SortedPerVideo(slot.put) && ConsumedInOrder(list, slot.left)
    ensures IncreasingPerVideo(list)
  {
    forall k, l | 0 <= k < l < |list| && list[k].frame.generation == list[l].frame.generation
      ensures list[k].frame.number < list[l].frame.number
    {
      assert slot.left[list[k].place].item == slot.put[list[k].place];
      assert slot.left[list[l].place].item == slot.put[list[l].place];
    }
  }

  /**
    For each video, the frames shown and the frames taken for inference are strictly increasing
    sub-sequences of the frames captured, each consumed from its own place in the queue's
    history; and the results shown come in the same order.
   */
  lemma {:induction false} SubsamplingIsOrdered(r: Run, i: nat)
    requires Legal(r) && i <= |r.events|
    ensures
      var s := r.states[i];
      && IncreasingPerVideo(s.gui.shown) && ConsumedInOrder(s.gui.shown, s.video.left)
      && IncreasingPerVideo(s.taken) && ConsumedInOrder(s.taken, s.inference.left)
      && IncreasingPerVideo(s.gui.results)
      && (forall k | 0 <= k < |s.gui.shown| :: WasCaptured(s, s.gui.shown[k].frame))
      && (forall k | 0 <= k < |s.taken| :: WasCaptured(s, s.taken[k].frame))
  {
    RunKeepsInv(r, i);
    var s := r.states[i];
    ConsumedIsIncreasing(s.gui.shown, s.video);
    ConsumedIsIncreasing(s.taken, s.inference);
    forall k | 0 <= k < |s.gui.shown| ensures WasCaptured(s, s.gui.shown[k].frame) {
      assert s.video.left[s.gui.shown[k].place].item == s.video.put[s.gui.shown[k].place];
    }
    forall k | 0 <= k < |s.taken| ensures WasCaptured(s, s.taken[k].frame) {
      assert s.inference.left[s.taken[k].place].item == s.inference.put[s.taken[k].place];
    }
  }

  predicate WasCaptured(s: State, frame: Frame) {
    frame.generation in s.captures && 1 <= frame.number <= s.captures[frame.generation].number
  }

  /** Every frame put in either queue is consumed, displaced, cleared, or still there: exactly one of them. */
  lemma {:induction false} FramesAreConserved(r: Run, i: nat)
    requires Legal(r) && i <= |r.events|
    ensures Slot.Conserved(r.states[i].video) && Slot.Conserved(r.states[i].inference)
  {
    RunKeepsInv(r, i);
  }

  // ---------------------------------------------------------------------
  // Silence after a stop
  // ---------------------------------------------------------------------

  lemma {:induction false} QuietStep(s: State, e: Event)
    requires Enabled(s, e) && Inv(s) && s.current < s.gui.generation && s.guiPc == Ready && e != Start
    ensures Apply(s, e).gui == s.gui && Apply(s, e).current == s.current && Apply(s, e).guiPc == Ready
  {
    match e
    case CaptureStep(g, outcome) => CaptureFrame(s, g, outcome);
    case InferenceStep(g, outcome) => InferenceFrame(s, g, outcome);
    case PollFrame =>
      assert s.video.content[0] == s.video.put[|s.video.left|];
      assert s.video.put[|s.video.left|].generation in s.captures;
    case PollNotice =>
      assert s.posted[s.polled].generation in s.captures;
    case _ =>
  }

  lemma {:induction false} QuietRun(r: Run, i: nat, j: nat)
    requires Legal(r) && i <= j <= |r.events|
    requires r.states[i].current < r.states[i].gui.generation && r.states[i].guiPc == Ready
    requires forall k | i <= k < j :: r.events[k] != Start
    ensures r.states[j].gui == r.states[i].gui
    ensures r.states[j].current == r.states[i].current && r.states[j].guiPc == Ready
    decreases j - i
  {
    if i < j {
      QuietRun(r, i, j - 1);
      RunKeepsInv(r, j - 1);
      StepOf(r, j - 1);
      QuietStep(r.states[j - 1], r.events[j - 1]);
    }
  }

  /** Stopping a running video silences all workers: nothing changes the GUI until the next start. */
  lemma {:induction false} NothingChangesUntilNextStart(r: Run, i: nat, j: nat)
    requires Legal(r) && i < j <= |r.events| && r.events[i] == Stop && r.states[i].gui.running
    requires forall k | i < k < j :: r.events[k] != Start
    ensures r.states[j].gui == r.states[i + 1].gui && !r.states[j].gui.running
  {
    StepOf(r, i);
    RunKeepsInv(r, i);
    QuietRun(r, i + 1, j);
  }

  // ---------------------------------------------------------------------
  // A single capture worker
  // ---------------------------------------------------------------------

  ghost predicate Alone(s: State, g: nat) {
    forall h | h in s.captures && h != g :: s.captures[h].pc == CaptureDone
  }

  predicate RoomHeld(slot: Slot.State<Frame>, g: nat) {
    !Slot.PhaseOf(slot, g).Raised? && (Slot.PhaseOf(slot, g).SecondPut? ==> slot.content == [])
  }

  lemma {:induction false} AloneStep(s: State, e: Event, g: nat)
    requires Enabled(s, e) && Inv(s) && Alone(s, g) && s.guiPc == Ready && e != Start
    requires RoomHeld(s.video, g) && RoomHeld(s.inference, g)
    ensures
      var next := Apply(s, e);
      Alone(next, g) && next.guiPc == Ready && RoomHeld(next.video, g) && RoomHeld(next.inference, g)
  {
    match e
    case CaptureStep(h, outcome) =>
      assert h == g;
      CaptureFrame(s, g, outcome);
      AloneCapture(s, g, outcome);
    case InferenceStep(h, outcome) =>
      AloneInference(s, h, outcome, g);
    case _ =>
      AloneOther(s, e, g);
  }

  lemma {:induction false} AloneInference(s: State, h: nat, outcome: Outcome, g: nat)
    requires Enabled(s, InferenceStep(h, outcome)) && Alone(s, g) && s.guiPc == Ready
    requires RoomHeld(s.video, g) && RoomHeld(s.inference, g)
    ensures
      var next := Apply(s, InferenceStep(h, outcome));
      Alone(next, g) && next.guiPc == Ready && RoomHeld(next.video, g) && RoomHeld(next.inference, g)
  {
    var next := StepInference(s, h, outcome);
    assert next.captures == s.captures && next.guiPc == s.guiPc && next.video == s.video by {
      InferenceFrame(s, h, outcome);
    }
    assert RoomHeld(next.inference, g) by {
      InferenceOnlyTakes(s, h, outcome);
    }
  }

  lemma {:induction false} InferenceOnlyTakes(s: State, h: nat, outcome: Outcome)
    requires Enabled(s, InferenceStep(h, outcome))
    ensures
      var next := StepInference(s, h, outcome);
      && next.inference.producers == s.inference.producers
      && (s.inference.content == [] ==> next.inference.content == [])
  {
  }

  lemma {:induction false} AloneOther(s: State, e: Event, g: nat)
    requires Enabled(s, e) && Inv(s) && Alone(s, g) && s.guiPc == Ready && e != Start
    requires RoomHeld(s.video, g) && RoomHeld(s.inference, g)
    requires !e.CaptureStep? && !e.InferenceStep?
    ensures
      var next := Apply(s, e);
      Alone(next, g) && next.guiPc == Ready && RoomHeld(next.video, g) && RoomHeld(next.inference, g)
  {
  }

  lemma {:induction false} AloneCapture(s: State, g: nat, outcome: Outcome)
    requires Enabled(s, CaptureStep(g, outcome)) && InPut(s, g)
    requires RoomHeld(s.video, g) && RoomHeld(s.inference, g) && |s.video.content| <= 1 && |s.inference.content| <= 1
    ensures
      var next := StepCapture(s, g, outcome);
      RoomHeld(next.video, g) && RoomHeld(next.inference, g)
  {
  }

  /**
    While all other capture workers are done, no put of the remaining one is ever refused, so its
    worker never takes the error path because of a full queue.
   */
  lemma {:induction false} LoneCaptureIsNeverRefused(r: Run, g: nat, i: nat, j: nat)
    requires Legal(r) && i <= j <= |r.events|
    requires Alone(r.states[i], g) && r.states[i].guiPc == Ready
    requires RoomHeld(r.states[i].video, g) && RoomHeld(r.states[i].inference, g)
    requires forall k | i <= k < j :: r.events[k] != Start
    ensures Alone(r.states[j], g) && r.states[j].guiPc == Ready
    ensures RoomHeld(r.states[j].video, g) && RoomHeld(r.states[j].inference, g)
    decreases j - i
  {
    if i < j {
      LoneCaptureIsNeverRefused(r, g, i, j - 1);
      RunKeepsInv(r, j - 1);
      StepOf(r, j - 1);
      AloneStep(r.states[j - 1], r.events[j - 1], g);
    }
  }

  /** In particular a worker launched when all earlier capture workers are done. */
  lemma {:induction false} LoneVideoIsNeverRefused(r: Run, i: nat, j: nat)
    requires Legal(r) && i < j <= |r.events|
    requires r.events[i] == GuiStep && r.states[i].guiPc == Launching
    requires forall h | h in r.states[i].captures :: r.states[i].captures[h].pc == CaptureDone
    requires forall k | i < k < j :: r.events[k] != Start
    ensures
      var g := r.states[i].current;
      && g in r.states[i + 1].captures
      && !Slot.PhaseOf(r.states[j].video, g).Raised? && !Slot.PhaseOf(r.states[j].inference, g).Raised?
  {
    var g := r.states[i].current;
    RunKeepsInv(r, i);
    assert InPut(r.states[i], g);
    StepOf(r, i);
    GuiFrame(r.states[i], GuiStep);
    LoneCaptureIsNeverRefused(r, g, i + 1, j);
  }

  // ---------------------------------------------------------------------
  // A video that ends by itself keeps its token
  // ---------------------------------------------------------------------

  /** Event `i` takes an end or error notice of video `g` from the event queue. */
  predicate PollsNoticeOf(r: Run, i: nat, g: nat)
    requires |r.states| == |r.events| + 1 && i < |r.events|
  {
    var s := r.states[i];
    && r.events[i] == PollNotice && s.polled < |s.posted|
    && !s.posted[s.polled].VideoInference? && s.posted[s.polled].generation == g
  }

  /** The notice changes what the GUI shows. */
  predicate AcceptedAt(r: Run, i: nat)
    requires |r.states| == |r.events| + 1 && i < |r.events|
  {
    |r.states[i + 1].gui.notices| == |r.states[i].gui.notices| + 1
  }

  lemma {:induction false} PollAt(r: Run, i: nat, g: nat)
    requires Legal(r) && i < |r.events| && PollsNoticeOf(r, i, g)
    ensures AcceptedAt(r, i) <==> g == r.states[i].gui.generation
    ensures AcceptedAt(r, i) ==> r.states[i + 1].gui.generation == g && !r.states[i + 1].gui.running
    ensures !AcceptedAt(r, i) ==> r.states[i + 1].gui == r.states[i].gui
  {
    StepOf(r, i);
  }

  /** A video that has ended by itself keeps its token until the next start; a stop changes nothing. */
  lemma {:induction false} EndedVideoKeepsToken(r: Run, i: nat, j: nat)
    requires Legal(r) && i <= j <= |r.events| && !r.states[i].gui.running
    requires forall k | i <= k < j :: r.events[k] != Start
    ensures r.states[j].gui.generation == r.states[i].gui.generation && !r.states[j].gui.running
    decreases j - i
  {
    if i < j {
      EndedVideoKeepsToken(r, i, j - 1);
      StepOf(r, j - 1);
      EndedStep(r.states[j - 1], r.events[j - 1]);
    }
  }

  lemma {:induction false} EndedStep(s: State, e: Event)
    requires Enabled(s, e) && e != Start && !s.gui.running
    ensures Apply(s, e).gui.generation == s.gui.generation && !Apply(s, e).gui.running
  {
    match e
    case CaptureStep(g, outcome) => CaptureFrame(s, g, outcome);
    case InferenceStep(g, outcome) => InferenceFrame(s, g, outcome);
    case _ =>
  }

  /**
    Once a notice has ended video `g`, whatever its workers still post is accepted if and only if no new video
    has been started in between; stopping in between makes no difference.
   */
  lemma {:induction false} LaterNoticeAcceptedExactlyUntilNextStart(r: Run, i: nat, j: nat, g: nat)
    requires Legal(r) && i < j < |r.events|
    requires PollsNoticeOf(r, i, g) && AcceptedAt(r, i) && PollsNoticeOf(r, j, g)
    ensures AcceptedAt(r, j) <==> forall k | i < k < j :: r.events[k] != Start
  {
    PollAt(r, i, g);
    PollAt(r, j, g);
    if k :| i < k < j && r.events[k] == Start {
      StepOf(r, k);
      GenerationsGrowInRuns(r, i + 1, k);
      GenerationsGrowInRuns(r, k + 1, j);
    } else {
      EndedVideoKeepsToken(r, i + 1, j);
    }
  }

  function Last(r: Run): State
    requires r.states != []
  {
    r.states[|r.states| - 1]
  }

  lemma {:induction false} Extend(r: Run, e: Event) returns (longer: Run)
    requires Legal(r) && Enabled(Last(r), e)
    ensures Legal(longer) && Last(longer) == Apply(Last(r), e)
    ensures |longer.events| == |r.events| + 1 && r.states == longer.states[..|r.states|]
  {
    longer := Run(r.events + [e], r.states + [Apply(Last(r), e)]);
    forall i: nat | i < |longer.events| ensures StepHolds(longer, i) {
      if i < |r.events| {
        StepOf(r, i);
      }
    }
  }

  lemma {:induction false} LaunchFirst() returns (r: Run)
    ensures Legal(r)
    ensures Last(r) == INITIAL.(gui := Gui(1, true, [], [], []), current := 1,
                                captures := map[1 := Capture(Opening, 0, 0, 0)],
                                inferences := map[1 := Inference(Top, 0, 0, 0)])
  {
    r := Run([], [INITIAL]);
    r := Extend(r, Start);
    r := Extend(r, GuiStep);
    r := Extend(r, GuiStep);
    r := Extend(r, GuiStep);
  }

  /** One frame is captured and put in both queues. */
  lemma {:induction false} CaptureFirst() returns (r: Run)
    ensures Legal(r)
    ensures
      var s := Last(r);
      && s.gui == Gui(1, true, [], [], []) && s.guiPc == Ready && s.stopped == {} && s.posted == [] && s.polled == 0
      && s.captures == map[1 := Capture(Looping, 1, 0, 0)] && s.inferences == map[1 := Inference(Top, 0, 0, 0)]
      && s.inference.content == [Frame(1, 1)]
  {
    r := LaunchFirst();
    r := Extend(r, CaptureStep(1, Good));
    r := Extend(r, CaptureStep(1, Good));
    r := Extend(r, CaptureStep(1, Good));
    r := Extend(r, CaptureStep(1, Good));
    r := Extend(r, CaptureStep(1, Good));
  }

  /** Its inference fails. */
  lemma {:induction false} FailFirst() returns (r: Run)
    ensures Legal(r)
    ensures
      var s := Last(r);
      && s.gui == Gui(1, true, [], [], []) && s.guiPc == Ready && s.stopped == {}
      && s.posted == [VideoError(1)] && s.polled == 0
      && s.captures == map[1 := Capture(Looping, 1, 0, 0)]
  {
    r := CaptureFirst();
    r := Extend(r, InferenceStep(1, Good));
    r := Extend(r, InferenceStep(1, Good));
    r := Extend(r, InferenceStep(1, Broken));
    r := Extend(r, InferenceStep(1, Good));
    r := Extend(r, InferenceStep(1, Good));
  }

  /** The GUI takes the error: the video no longer runs, but the capture worker is not told. */
  lemma {:induction false} NoticeFirst() returns (r: Run)
    ensures Legal(r)
    ensures
      var s := Last(r);
      && s.gui == Gui(1, false, [], [], [VideoError(1)]) && s.guiPc == Ready && s.stopped == {}
      && s.posted == [VideoError(1)] && s.polled == 1
      && s.captures == map[1 := Capture(Looping, 1, 0, 0)]
  {
    r := FailFirst();
    r := Extend(r, PollNotice);
  }

  /** The source ends, and the capture worker posts its end notice. */
  lemma {:induction false} EndPosted() returns (r: Run, ended: nat)
    ensures Legal(r) && ended < |r.events|
    ensures
      var s := r.states[ended];
      && !s.gui.running && s.gui.generation == 1 && s.gui.notices == [VideoError(1)]
      && 1 !in s.stopped && 1 in s.captures && s.captures[1].pc == Looping
    ensures
      var s := Last(r);
      && s.gui == Gui(1, false, [], [], [VideoError(1)]) && s.guiPc == Ready && s.stopped == {}
      && s.posted == [VideoError(1), VideoEnd(1)] && s.polled == 1
  {
    r := NoticeFirst();
    ended := |r.events|;
    r := Extend(r, CaptureStep(1, Good));
    r := Extend(r, CaptureStep(1, Finished));
    r := Extend(r, CaptureStep(1, Good));
    r := Extend(r, CaptureStep(1, Good));
  }

  /**
    After an inference error, in state `ended`, the video no longer runs, yet its stop flag is not set and its
    capture worker goes on; when the source ends, its end notice still changes what the GUI shows.
   */
  lemma {:induction false} EndIsAcceptedAfterError() returns (r: Run, ended: nat)
    ensures Legal(r) && ended < |r.events|
    ensures
      var s := r.states[ended];
      && !s.gui.running && s.gui.generation == 1 && s.gui.notices == [VideoError(1)]
      && 1 !in s.stopped && 1 in s.captures && s.captures[1].pc == Looping
    ensures
      var s := r.states[|r.events| - 1];
      && !s.gui.running && s.gui.notices == [VideoError(1)] && 1 !in s.stopped
      && Last(r).gui.notices == [VideoError(1), VideoEnd(1)]
  {
    r, ended := EndPosted();
    r := Extend(r, PollNotice);
  }
}
