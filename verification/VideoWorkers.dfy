/**
  What the workers of the video pipeline do over a whole run: frames go to both queues, and what is
  posted to the GUI has its cause in the run.
 */
module VideoWorkers {
  import Slot = LatestSlot
  import opened VideoPipeline
  import opened VideoSafety
  import VideoShows

  // ---------------------------------------------------------------------
  // Frames
  // ---------------------------------------------------------------------

  /** Event `k` reads a frame for video `g`. */
  predicate ReadsFrame(r: Run, k: nat, g: nat)
    requires k < |r.events| && k < |r.states|
  {
    r.events[k] == CaptureStep(g, Good) && g in r.states[k].captures && r.states[k].captures[g].pc == Reading
  }

  /** How many frames have been read for video `g` before event `j`. */
  function FramesRead(r: Run, j: nat, g: nat): nat
    requires j <= |r.events| && j <= |r.states|
  {
    if j == 0 then 0
    else FramesRead(r, j - 1, g) + if ReadsFrame(r, j - 1, g) then 1 else 0
  }

  /** Between two frames the worker owes none to either queue. */
  predicate Between(c: Capture) {
    c.pc == Opening || c.pc == Looping || c.pc == Reading || c.pc == EndCheck || c.pc == EndPost || c.pc == EndSet
  }

  /** All frames up to the last one are in the history of both queues; the last one is too between two frames. */
  ghost predicate Offered(s: State, g: nat) {
    g in s.captures ==>
      var c := s.captures[g];
      && (forall n | 1 <= n < c.number :: Frame(g, n) in s.video.put && Frame(g, n) in s.inference.put)
      && (Between(c) && c.number >= 1 ==>
            Frame(g, c.number) in s.video.put && Frame(g, c.number) in s.inference.put)
      && (c.pc == PuttingInference ==> Frame(g, c.number) in s.video.put)
  }

  lemma {:induction false} PutVideoAdds(s: State, g: nat)
    requires g in s.captures && s.captures[g].pc == PuttingVideo && InPut(s, g)
    requires !Slot.PhaseOf(s.video, g).Idle?
    ensures
      var next, c := StepPutVideo(s, g), s.captures[g];
      && next.inference.put == s.inference.put
      && next.captures[g].number == c.number
      && (next.captures[g].pc == PuttingInference ==> next.video.put == s.video.put + [Frame(g, c.number)])
      && (next.captures[g].pc != PuttingInference ==>
            next.video.put == s.video.put && next.captures[g].pc in {PuttingVideo, ErrorCheck})
  {
  }

  lemma {:induction false} PutInferenceAdds(s: State, g: nat)
    requires g in s.captures && s.captures[g].pc == PuttingInference && InPut(s, g)
    requires !Slot.PhaseOf(s.inference, g).Idle?
    ensures
      var next, c := StepPutInference(s, g), s.captures[g];
      && next.video.put == s.video.put
      && next.captures[g].number == c.number
      && (next.captures[g].pc == Looping ==> next.inference.put == s.inference.put + [Frame(g, c.number)])
      && (next.captures[g].pc != Looping ==>
            next.inference.put == s.inference.put && next.captures[g].pc in {PuttingInference, ErrorCheck})
  {
  }

  lemma {:induction false} PlainAdds(s: State, g: nat, outcome: Outcome)
    requires Enabled(s, CaptureStep(g, outcome))
    requires s.captures[g].pc != PuttingVideo && s.captures[g].pc != PuttingInference
    ensures
      var next, c := StepCapture(s, g, outcome), s.captures[g];
      && next.video.put == s.video.put && next.inference.put == s.inference.put
      && (if c.pc == Reading && outcome == Good then
            next.captures[g].number == c.number + 1 && next.captures[g].pc == PuttingVideo
          else
            && next.captures[g].number == c.number && next.captures[g].pc != PuttingVideo
            && next.captures[g].pc != PuttingInference && (Between(next.captures[g]) ==> Between(c)))
  {
  }

  lemma {:induction false} PutVideoOffers(s: State, g: nat)
    requires g in s.captures && s.captures[g].pc == PuttingVideo && InPut(s, g) && Offered(s, g)
    requires !Slot.PhaseOf(s.video, g).Idle?
    ensures Offered(StepPutVideo(s, g), g)
    ensures s.video.put <= StepPutVideo(s, g).video.put && s.inference.put == StepPutVideo(s, g).inference.put
  {
    PutVideoAdds(s, g);
  }

  lemma {:induction false} PutInferenceOffers(s: State, g: nat)
    requires g in s.captures && s.captures[g].pc == PuttingInference && InPut(s, g) && Offered(s, g)
    requires !Slot.PhaseOf(s.inference, g).Idle?
    ensures Offered(StepPutInference(s, g), g)
    ensures
      s.video.put == StepPutInference(s, g).video.put && s.inference.put <= StepPutInference(s, g).inference.put
  {
    PutInferenceAdds(s, g);
  }

  lemma {:induction false} PlainOffers(s: State, g: nat, outcome: Outcome)
    requires Enabled(s, CaptureStep(g, outcome)) && Offered(s, g)
    requires s.captures[g].pc != PuttingVideo && s.captures[g].pc != PuttingInference
    ensures Offered(StepCapture(s, g, outcome), g)
    ensures s.video.put == StepCapture(s, g, outcome).video.put
    ensures s.inference.put == StepCapture(s, g, outcome).inference.put
  {
    PlainAdds(s, g, outcome);
  }

  lemma {:induction false} CaptureOffers(s: State, g: nat, outcome: Outcome)
    requires Enabled(s, CaptureStep(g, outcome)) && InPut(s, g) && Offered(s, g)
    ensures Offered(StepCapture(s, g, outcome), g)
    ensures s.video.put <= StepCapture(s, g, outcome).video.put
    ensures s.inference.put <= StepCapture(s, g, outcome).inference.put
  {
    if s.captures[g].pc == PuttingVideo {
      PutVideoOffers(s, g);
    } else if s.captures[g].pc == PuttingInference {
      PutInferenceOffers(s, g);
    } else {
      PlainOffers(s, g, outcome);
    }
  }

  lemma {:induction false} StaysOffered(s: State, next: State, g: nat)
    requires Offered(s, g) && s.video.put <= next.video.put && s.inference.put <= next.inference.put
    requires g in next.captures ==> g in s.captures && next.captures[g] == s.captures[g]
    ensures Offered(next, g)
  {
  }

  lemma {:induction false} OfferedNext(s: State, e: Event, g: nat)
    requires Enabled(s, e) && Tokens(s) && Slots(s) && Offered(s, g)
    requires e.CaptureStep? ==> Offered(s, e.g)
    ensures Offered(Apply(s, e), g)
  {
    match e
    case CaptureStep(h, outcome) =>
      assert InPut(s, h);
      CaptureOffers(s, h, outcome);
      if h != g {
        CaptureFrame(s, h, outcome);
        StaysOffered(s, Apply(s, e), g);
      }
    case InferenceStep(h, outcome) =>
      InferenceFrame(s, h, outcome);
      InferenceHistories(s, h, outcome);
      StaysOffered(s, Apply(s, e), g);
    case _ =>
      GuiFrame(s, e);
      if !(e == GuiStep && s.guiPc == Launching && g == s.current) {
        StaysOffered(s, Apply(s, e), g);
      }
  }

  lemma {:induction false} RunOffers(r: Run, i: nat)
    requires Legal(r) && i <= |r.events|
    ensures Tokens(r.states[i]) && Slots(r.states[i]) && forall g :: Offered(r.states[i], g)
  {
    if i == 0 {
      forall g ensures InPut(INITIAL, g) {
      }
    } else {
      var s, e := r.states[i - 1], r.events[i - 1];
      RunOffers(r, i - 1);
      StepOf(r, i - 1);
      TokensKept(s, e);
      SlotsKept(s, e);
      forall g ensures Offered(Apply(s, e), g) {
        OfferedNext(s, e, g);
      }
    }
  }

  lemma {:induction false} NumberNext(r: Run, i: nat, g: nat)
    requires Legal(r) && i < |r.events| && g in r.states[i + 1].captures
    ensures r.states[i + 1].captures[g].number ==
      (if g in r.states[i].captures then r.states[i].captures[g].number else 0)
      + if ReadsFrame(r, i, g) then 1 else 0
  {
    var s, e := r.states[i], r.events[i];
    StepOf(r, i);
    VideoShows.TokensOfRun(r, i);
    match e
    case CaptureStep(h, outcome) =>
      CaptureFrame(s, h, outcome);
      if h == g {
        CaptureNumber(s, g, outcome);
      }
    case InferenceStep(h, outcome) =>
      InferenceFrame(s, h, outcome);
    case _ =>
      GuiFrame(s, e);
  }

  lemma {:induction false} CaptureNumber(s: State, g: nat, outcome: Outcome)
    requires Enabled(s, CaptureStep(g, outcome))
    ensures StepCapture(s, g, outcome).captures[g].number ==
      s.captures[g].number + if s.captures[g].pc == Reading && outcome == Good then 1 else 0
  {
    match s.captures[g].pc
    case PuttingVideo =>
    case PuttingInference =>
    case _ =>
  }

  lemma {:induction false} NobodyReads(r: Run, i: nat, g: nat)
    requires Legal(r) && i <= |r.events| && g !in r.states[i].captures
    ensures FramesRead(r, i, g) == 0
  {
    if i > 0 {
      CapturesStay(r, i - 1, g);
      NobodyReads(r, i - 1, g);
    }
  }

  lemma {:induction false} CapturesStay(r: Run, i: nat, g: nat)
    requires Legal(r) && i < |r.events|
    ensures g in r.states[i].captures ==> g in r.states[i + 1].captures
  {
    StepOf(r, i);
    match r.events[i]
    case CaptureStep(h, outcome) => CaptureFrame(r.states[i], h, outcome);
    case InferenceStep(h, outcome) => InferenceFrame(r.states[i], h, outcome);
    case _ => GuiFrame(r.states[i], r.events[i]);
  }

  lemma {:induction false} NumberCountsFrames(r: Run, i: nat, g: nat)
    requires Legal(r) && i <= |r.events| && g in r.states[i].captures
    ensures r.states[i].captures[g].number == FramesRead(r, i, g)
  {
    if i > 0 {
      NumberNext(r, i - 1, g);
      if g in r.states[i - 1].captures {
        NumberCountsFrames(r, i - 1, g);
      } else {
        NobodyReads(r, i - 1, g);
      }
    }
  }

  /**
    Frames are numbered as they are read, and every frame read but the last has been put in both queues; the
    last one too, unless the worker is inside a put or has ended with an error.
   */
  lemma {:induction false} FramesGoToBothQueues(r: Run, i: nat, g: nat)
    requires Legal(r) && i <= |r.events| && g in r.states[i].captures
    ensures
      var s := r.states[i];
      && (forall n | 1 <= n < FramesRead(r, i, g) :: Frame(g, n) in s.video.put && Frame(g, n) in s.inference.put)
      && (s.captures[g].pc == Looping && FramesRead(r, i, g) >= 1 ==>
            var last := Frame(g, FramesRead(r, i, g));
            last in s.video.put && last in s.inference.put)
  {
    NumberCountsFrames(r, i, g);
    RunOffers(r, i);
    assert Offered(r.states[i], g);
  }

  /** Event `k` opens the source of video `g`. */
  predicate OpensSource(r: Run, k: nat, g: nat)
    requires k < |r.events| && k < |r.states|
  {
    r.events[k] == CaptureStep(g, Good) && g in r.states[k].captures && r.states[k].captures[g].pc == Opening
  }

  /** The worker is past opening its source. */
  predicate IsOpen(s: State, g: nat) {
    && g in s.captures
    && s.captures[g].pc in {Looping, Reading, PuttingVideo, PuttingInference, EndCheck, EndPost, EndSet}
  }

  lemma {:induction false} OpenNext(r: Run, i: nat, g: nat)
    requires Legal(r) && i < |r.events| && IsOpen(r.states[i + 1], g)
    ensures IsOpen(r.states[i], g) || OpensSource(r, i, g)
  {
    var s, e := r.states[i], r.events[i];
    StepOf(r, i);
    match e
    case CaptureStep(h, outcome) =>
      CaptureFrame(s, h, outcome);
      if h == g {
        CaptureOpens(s, g, outcome);
      }
    case InferenceStep(h, outcome) =>
      InferenceFrame(s, h, outcome);
    case _ =>
      GuiFrame(s, e);
  }

  lemma {:induction false} CaptureOpens(s: State, g: nat, outcome: Outcome)
    requires Enabled(s, CaptureStep(g, outcome)) && IsOpen(StepCapture(s, g, outcome), g)
    ensures IsOpen(s, g) || (s.captures[g].pc == Opening && outcome == Good)
  {
    match s.captures[g].pc
    case PuttingVideo =>
    case PuttingInference =>
    case _ =>
  }

  /** No worker gets past opening its source, and so to its frames, without having opened it. */
  lemma {:induction false} SourceIsOpenedFirst(r: Run, i: nat, g: nat)
    requires Legal(r) && i <= |r.events| && IsOpen(r.states[i], g)
    ensures exists k: nat | k < i :: OpensSource(r, k, g)
  {
    assert i > 0;
    OpenNext(r, i - 1, g);
    if IsOpen(r.states[i - 1], g) {
      SourceIsOpenedFirst(r, i - 1, g);
    }
  }

  // ---------------------------------------------------------------------
  // Ends and errors
  // ---------------------------------------------------------------------

  /** The source of video `g` has no more frames. */
  predicate SourceEnds(s: State, e: Event, g: nat) {
    e == CaptureStep(g, Finished) && g in s.captures && s.captures[g].pc == Reading
  }

  /** The source cannot be opened or read, a put is refused, or an inference fails. */
  predicate Fails(s: State, e: Event, g: nat) {
    match e
    case CaptureStep(h, outcome) =>
      && h == g && g in s.captures
      && ((s.captures[g].pc == Opening && outcome != Good)
          || (s.captures[g].pc == Reading && outcome == Broken)
          || (s.captures[g].pc == PuttingVideo && Slot.PhaseOf(s.video, g).Raised?)
          || (s.captures[g].pc == PuttingInference && Slot.PhaseOf(s.inference, g).Raised?))
    case InferenceStep(h, outcome) =>
      h == g && g in s.inferences && s.inferences[g].pc == Working && outcome == Broken
    case _ => false
  }

  /** An end notice is posted, or its worker is on the way to posting it. */
  predicate Ending(s: State, g: nat) {
    || VideoEnd(g) in s.posted
    || (g in s.captures && (s.captures[g].pc == EndPost || s.captures[g].pc == EndSet))
    || (g in s.captures && s.captures[g].pc == EndCheck && g !in s.stopped)
  }

  predicate Failing(s: State, g: nat) {
    || VideoError(g) in s.posted
    || (g in s.captures && s.captures[g].pc in {ErrorCheck, ErrorPost, ErrorSet})
    || (g in s.inferences && s.inferences[g].pc in {FailCheck, FailPost})
  }

  lemma {:induction false} CaptureEnds(s: State, g: nat, outcome: Outcome)
    requires Enabled(s, CaptureStep(g, outcome)) && Ending(StepCapture(s, g, outcome), g)
    ensures Ending(s, g) || SourceEnds(s, CaptureStep(g, outcome), g)
  {
    match s.captures[g].pc
    case PuttingVideo =>
    case PuttingInference =>
    case _ =>
  }

  lemma {:induction false} CaptureFailures(s: State, g: nat, outcome: Outcome)
    requires Enabled(s, CaptureStep(g, outcome)) && Failing(StepCapture(s, g, outcome), g)
    ensures Failing(s, g) || Fails(s, CaptureStep(g, outcome), g)
  {
    match s.captures[g].pc
    case PuttingVideo =>
    case PuttingInference =>
    case _ =>
  }

  lemma {:induction false} InferenceEndsAndFails(s: State, g: nat, outcome: Outcome)
    requires Enabled(s, InferenceStep(g, outcome))
    ensures Ending(StepInference(s, g, outcome), g) ==> Ending(s, g)
    ensures Failing(StepInference(s, g, outcome), g) ==> Failing(s, g) || Fails(s, InferenceStep(g, outcome), g)
  {
  }

  lemma {:induction false} CauseNext(s: State, e: Event, g: nat)
    requires Enabled(s, e)
    ensures Ending(Apply(s, e), g) ==> Ending(s, g) || SourceEnds(s, e, g)
    ensures Failing(Apply(s, e), g) ==> Failing(s, g) || Fails(s, e, g)
  {
    match e
    case CaptureStep(h, outcome) =>
      CaptureFrame(s, h, outcome);
      if h == g {
        if Ending(Apply(s, e), g) {
          CaptureEnds(s, g, outcome);
        }
        if Failing(Apply(s, e), g) {
          CaptureFailures(s, g, outcome);
        }
      } else {
        StopsAreFinal(s, h, outcome);
        CaptureHistories(s, h, outcome);
      }
    case InferenceStep(h, outcome) =>
      InferenceFrame(s, h, outcome);
      InferenceHistories(s, h, outcome);
      if h == g {
        InferenceEndsAndFails(s, g, outcome);
      }
    case _ =>
      GuiFrame(s, e);
  }

  predicate SourceEndsAt(r: Run, k: nat, g: nat)
    requires k < |r.events| && k < |r.states|
  {
    SourceEnds(r.states[k], r.events[k], g)
  }

  predicate FailsAt(r: Run, k: nat, g: nat)
    requires k < |r.events| && k < |r.states|
  {
    Fails(r.states[k], r.events[k], g)
  }

  lemma {:induction false} CausesOf(r: Run, i: nat, g: nat)
    requires Legal(r) && i <= |r.events|
    ensures Ending(r.states[i], g) ==> exists k: nat | k < i :: SourceEndsAt(r, k, g)
    ensures Failing(r.states[i], g) ==> exists k: nat | k < i :: FailsAt(r, k, g)
  {
    if i > 0 {
      CausesOf(r, i - 1, g);
      StepOf(r, i - 1);
      CauseNext(r.states[i - 1], r.events[i - 1], g);
      assert SourceEnds(r.states[i - 1], r.events[i - 1], g) ==> SourceEndsAt(r, i - 1, g);
      assert Fails(r.states[i - 1], r.events[i - 1], g) ==> FailsAt(r, i - 1, g);
    }
  }

  /** An end is only reported of a source that has ended, an error only where something failed. */
  lemma {:induction false} NoticesHaveCauses(r: Run, i: nat, g: nat)
    requires Legal(r) && i <= |r.events|
    ensures VideoEnd(g) in r.states[i].posted ==> exists k: nat | k < i :: SourceEndsAt(r, k, g)
    ensures VideoError(g) in r.states[i].posted ==> exists k: nat | k < i :: FailsAt(r, k, g)
  {
    CausesOf(r, i, g);
  }

  predicate Reported(s: State, g: nat) {
    VideoEnd(g) in s.posted || VideoError(g) in s.posted
  }

  /** A flag is set by the GUI, which gives up the token, or by the worker after it has reported. */
  predicate Reports(s: State, g: nat) {
    && (g in s.stopped ==>
          g < s.gui.generation || (g in s.captures && s.captures[g].pc == CaptureDone && Reported(s, g)))
    && (g in s.captures && (s.captures[g].pc == EndSet || s.captures[g].pc == ErrorSet) ==> Reported(s, g))
    && (g in s.captures && s.captures[g].pc == CaptureDone ==> g < s.gui.generation || Reported(s, g))
    && (g in s.inferences && s.inferences[g].pc == InferenceDone ==> VideoError(g) in s.posted || g in s.stopped)
  }

  lemma {:induction false} CaptureReports(s: State, g: nat, outcome: Outcome)
    requires Enabled(s, CaptureStep(g, outcome)) && Reports(s, g)
    ensures Reports(StepCapture(s, g, outcome), g)
  {
    CaptureFrame(s, g, outcome);
    CaptureHistories(s, g, outcome);
    StopsAreFinal(s, g, outcome);
    match s.captures[g].pc
    case PuttingVideo =>
    case PuttingInference =>
    case _ =>
  }

  lemma {:induction false} OtherCaptureReports(s: State, h: nat, outcome: Outcome, g: nat)
    requires Enabled(s, CaptureStep(h, outcome)) && Reports(s, g) && h != g
    ensures Reports(StepCapture(s, h, outcome), g)
  {
    CaptureFrame(s, h, outcome);
    CaptureHistories(s, h, outcome);
    CaptureStopsItself(s, h, outcome);
  }

  lemma {:induction false} CaptureStopsItself(s: State, g: nat, outcome: Outcome)
    requires Enabled(s, CaptureStep(g, outcome))
    ensures s.stopped <= StepCapture(s, g, outcome).stopped <= s.stopped + {g}
  {
    match s.captures[g].pc
    case PuttingVideo =>
    case PuttingInference =>
    case _ =>
  }

  lemma {:induction false} InferenceReports(s: State, h: nat, outcome: Outcome, g: nat)
    requires Enabled(s, InferenceStep(h, outcome)) && Reports(s, g)
    ensures Reports(StepInference(s, h, outcome), g)
  {
    InferenceFrame(s, h, outcome);
    InferenceHistories(s, h, outcome);
    if h == g {
      InferenceEndReports(s, g, outcome);
    }
  }

  lemma {:induction false} InferenceEndReports(s: State, g: nat, outcome: Outcome)
    requires Enabled(s, InferenceStep(g, outcome))
    ensures
      var next := StepInference(s, g, outcome);
      next.inferences[g].pc == InferenceDone ==> VideoError(g) in next.posted || g in next.stopped
  {
  }

  lemma {:induction false} ReportsNext(s: State, e: Event, g: nat)
    requires Enabled(s, e) && Tokens(s) && Reports(s, g)
    ensures Reports(Apply(s, e), g)
  {
    match e
    case CaptureStep(h, outcome) =>
      if h == g {
        CaptureReports(s, g, outcome);
      } else {
        OtherCaptureReports(s, h, outcome, g);
      }
    case InferenceStep(h, outcome) =>
      InferenceReports(s, h, outcome, g);
    case _ =>
      GuiFrame(s, e);
  }

  lemma {:induction false} RunReports(r: Run, i: nat, g: nat)
    requires Legal(r) && i <= |r.events|
    ensures Reports(r.states[i], g)
  {
    if i > 0 {
      RunReports(r, i - 1, g);
      VideoShows.TokensOfRun(r, i - 1);
      StepOf(r, i - 1);
      ReportsNext(r.states[i - 1], r.events[i - 1], g);
    }
  }

  /** No worker ends in silence unless its video was stopped. */
  lemma {:induction false} WorkersEndWithAReason(r: Run, i: nat, g: nat)
    requires Legal(r) && i <= |r.events|
    ensures
      var s := r.states[i];
      && (g in s.captures && s.captures[g].pc == CaptureDone ==>
            g < s.gui.generation || VideoEnd(g) in s.posted || VideoError(g) in s.posted)
      && (g in s.inferences && s.inferences[g].pc == InferenceDone ==> g in s.stopped || VideoError(g) in s.posted)
  {
    RunReports(r, i, g);
  }

  // ---------------------------------------------------------------------
  // What ends a worker
  // ---------------------------------------------------------------------

  /** The capture worker of `g` reads no more; it has reported its end, or is about to, unless the token is given up. */
  predicate EndsWith(s: State, g: nat, notice: Notice, on: set<CapturePc>) {
    && g in s.captures
    && (s.captures[g].pc in on
        || (s.captures[g].pc == CaptureDone && (notice in s.posted || g < s.gui.generation)))
  }

  const END_PATH: set<CapturePc> := {EndCheck, EndPost, EndSet}
  const ERROR_PATH: set<CapturePc> := {ErrorCheck, ErrorPost, ErrorSet}

  /** On the way out a worker only sets its flag when it has posted. */
  predicate OnTheWayOut(s: State, g: nat) {
    g in s.captures ==>
      && (s.captures[g].pc == EndSet ==> VideoEnd(g) in s.posted)
      && (s.captures[g].pc == ErrorSet ==> VideoError(g) in s.posted)
  }

  lemma {:induction false} CaptureGoesOut(s: State, g: nat, outcome: Outcome)
    requires Enabled(s, CaptureStep(g, outcome)) && Reports(s, g) && OnTheWayOut(s, g)
    ensures
      var next := StepCapture(s, g, outcome);
      && OnTheWayOut(next, g)
      && (EndsWith(s, g, VideoEnd(g), END_PATH) || SourceEnds(s, CaptureStep(g, outcome), g) ==>
            EndsWith(next, g, VideoEnd(g), END_PATH))
      && (EndsWith(s, g, VideoError(g), ERROR_PATH) || Fails(s, CaptureStep(g, outcome), g) ==>
            EndsWith(next, g, VideoError(g), ERROR_PATH))
  {
    CaptureFrame(s, g, outcome);
    CaptureHistories(s, g, outcome);
    match s.captures[g].pc
    case PuttingVideo =>
    case PuttingInference =>
    case _ =>
  }

  predicate CaptureFails(s: State, e: Event, g: nat) {
    e.CaptureStep? && Fails(s, e, g)
  }

  lemma {:induction false} OthersKeepOut(s: State, e: Event, g: nat)
    requires Enabled(s, e) && Tokens(s) && OnTheWayOut(s, g) && !(e.CaptureStep? && e.g == g)
    ensures
      var next := Apply(s, e);
      && OnTheWayOut(next, g)
      && (EndsWith(s, g, VideoEnd(g), END_PATH) ==> EndsWith(next, g, VideoEnd(g), END_PATH))
      && (EndsWith(s, g, VideoError(g), ERROR_PATH) ==> EndsWith(next, g, VideoError(g), ERROR_PATH))
  {
    GenerationsOnlyGrow(s, e);
    match e
    case CaptureStep(h, outcome) =>
      CaptureFrame(s, h, outcome);
      CaptureHistories(s, h, outcome);
    case InferenceStep(h, outcome) =>
      InferenceFrame(s, h, outcome);
      InferenceHistories(s, h, outcome);
    case _ =>
      GuiFrame(s, e);
  }

  lemma {:induction false} RunGoesOut(r: Run, i: nat, g: nat)
    requires Legal(r) && i <= |r.events|
    ensures OnTheWayOut(r.states[i], g)
  {
    if i > 0 {
      RunGoesOut(r, i - 1, g);
      OutNext(r, i - 1, g);
    }
  }

  lemma {:induction false} OutNext(r: Run, i: nat, g: nat)
    requires Legal(r) && i < |r.events| && OnTheWayOut(r.states[i], g)
    ensures
      var s, e, next := r.states[i], r.events[i], r.states[i + 1];
      && OnTheWayOut(next, g)
      && (EndsWith(s, g, VideoEnd(g), END_PATH) || SourceEnds(s, e, g) ==> EndsWith(next, g, VideoEnd(g), END_PATH))
      && (EndsWith(s, g, VideoError(g), ERROR_PATH) || CaptureFails(s, e, g) ==>
            EndsWith(next, g, VideoError(g), ERROR_PATH))
  {
    var s, e := r.states[i], r.events[i];
    StepOf(r, i);
    RunReports(r, i, g);
    VideoShows.TokensOfRun(r, i);
    if e.CaptureStep? && e.g == g {
      CaptureGoesOut(s, g, e.outcome);
    } else {
      OthersKeepOut(s, e, g);
    }
  }

  /** When its source has ended, a capture worker reads no more, and has reported the end when it is done. */
  lemma {:induction false} SourceEndEndsTheWorker(r: Run, k: nat, j: nat, g: nat)
    requires Legal(r) && k < j <= |r.events| && SourceEndsAt(r, k, g)
    ensures EndsWith(r.states[j], g, VideoEnd(g), END_PATH)
    decreases j
  {
    RunGoesOut(r, j - 1, g);
    OutNext(r, j - 1, g);
    if k < j - 1 {
      SourceEndEndsTheWorker(r, k, j - 1, g);
    }
  }

  /** When opening, reading or a put fails, a capture worker reads no more, and has reported it when it is done. */
  lemma {:induction false} FailureEndsTheWorker(r: Run, k: nat, j: nat, g: nat)
    requires Legal(r) && k < j <= |r.events| && CaptureFails(r.states[k], r.events[k], g)
    ensures EndsWith(r.states[j], g, VideoError(g), ERROR_PATH)
    decreases j
  {
    RunGoesOut(r, j - 1, g);
    OutNext(r, j - 1, g);
    if k < j - 1 {
      FailureEndsTheWorker(r, k, j - 1, g);
    }
  }

  /** The inference worker of `g` takes no more frames; it has reported its error unless its video was stopped. */
  predicate GivesUp(s: State, g: nat) {
    && g in s.inferences && s.inferences[g].pc in {FailCheck, FailPost, InferenceDone}
    && (s.inferences[g].pc == InferenceDone ==> VideoError(g) in s.posted || g in s.stopped)
  }

  lemma {:induction false} GivingUpNext(s: State, e: Event, g: nat)
    requires Enabled(s, e) && Tokens(s) && (GivesUp(s, g) || (e.InferenceStep? && Fails(s, e, g)))
    ensures GivesUp(Apply(s, e), g)
  {
    match e
    case CaptureStep(h, outcome) =>
      CaptureFrame(s, h, outcome);
      CaptureHistories(s, h, outcome);
      StopsAreFinal(s, h, outcome);
    case InferenceStep(h, outcome) =>
      InferenceFrame(s, h, outcome);
      InferenceHistories(s, h, outcome);
    case _ =>
      GuiFrame(s, e);
  }

  lemma {:induction false} FailedInferenceEndsTheWorker(r: Run, k: nat, j: nat, g: nat)
    requires Legal(r) && k < j <= |r.events| && r.events[k].InferenceStep? && FailsAt(r, k, g)
    ensures GivesUp(r.states[j], g)
    decreases j
  {
    if k < j - 1 {
      FailedInferenceEndsTheWorker(r, k, j - 1, g);
    }
    StepOf(r, j - 1);
    VideoShows.TokensOfRun(r, j - 1);
    GivingUpNext(r.states[j - 1], r.events[j - 1], g);
  }

  // ---------------------------------------------------------------------
  // Frames taken and answered
  // ---------------------------------------------------------------------

  /** Event `k` is the inference worker of the frame's video taking it from its place in the queue. */
  predicate TakesFrame(r: Run, k: nat, frame: Frame, place: nat)
    requires k < |r.events| && k < |r.states|
  {
    var s, g := r.states[k], frame.generation;
    && r.events[k].InferenceStep? && r.events[k].g == g && g in s.inferences && s.inferences[g].pc == Getting
    && s.inference.content != [] && s.inference.content[0] == frame && |s.inference.left| == place
  }

  /** Event `k` is the response to the request with frame `n`. */
  predicate Responds(r: Run, k: nat, g: nat, n: nat)
    requires k < |r.events| && k < |r.states|
  {
    && r.events[k] == InferenceStep(g, Good) && g in r.states[k].inferences
    && r.states[k].inferences[g].pc == Working && r.states[k].inferences[g].number == n
  }

  lemma {:induction false} InferencePosts(s: State, g: nat, outcome: Outcome)
    requires Enabled(s, InferenceStep(g, outcome))
    ensures
      var next, w := StepInference(s, g, outcome), s.inferences[g];
      && (if w.pc == Working && outcome == Good then next.posted == s.posted + [VideoInference(g, w.number)]
          else next.posted == s.posted || next.posted == s.posted + [VideoError(g)])
      && (if w.pc == Getting && s.inference.content != [] && s.inference.content[0].generation == g then
            next.taken == s.taken + [Placed(s.inference.content[0], |s.inference.left|)]
          else next.taken == s.taken)
  {
  }

  lemma {:induction false} HistoriesNext(r: Run, i: nat, g: nat, n: nat, frame: Frame, place: nat)
    requires Legal(r) && i < |r.events|
    ensures VideoInference(g, n) in r.states[i + 1].posted <==>
      VideoInference(g, n) in r.states[i].posted || Responds(r, i, g, n)
    ensures Placed(frame, place) in r.states[i + 1].taken <==>
      Placed(frame, place) in r.states[i].taken || TakesFrame(r, i, frame, place)
  {
    var s, e := r.states[i], r.events[i];
    StepOf(r, i);
    match e
    case CaptureStep(h, outcome) =>
      CaptureFrame(s, h, outcome);
      CaptureHistories(s, h, outcome);
    case InferenceStep(h, outcome) =>
      InferencePosts(s, h, outcome);
    case _ =>
      GuiFrame(s, e);
  }

  /** A result is posted exactly for every frame that got its response. */
  lemma {:induction false} PostedExactlyWhenAnswered(r: Run, i: nat, g: nat, n: nat)
    requires Legal(r) && i <= |r.events|
    ensures VideoInference(g, n) in r.states[i].posted <==> exists k: nat | k < i :: Responds(r, k, g, n)
  {
    if i > 0 {
      PostedExactlyWhenAnswered(r, i - 1, g, n);
      HistoriesNext(r, i - 1, g, n, Frame(0, 0), 0);
    }
  }

  lemma {:induction false} TakenExactly(r: Run, i: nat, frame: Frame, place: nat)
    requires Legal(r) && i <= |r.events|
    ensures Placed(frame, place) in r.states[i].taken <==> exists k: nat | k < i :: TakesFrame(r, k, frame, place)
  {
    if i > 0 {
      TakenExactly(r, i - 1, frame, place);
      HistoriesNext(r, i - 1, 0, 0, frame, place);
    }
  }

  /** What a waiting worker has sent is a frame of its own video it took. */
  ghost predicate HoldsTaken(s: State, g: nat) {
    g in s.inferences && s.inferences[g].pc == Working ==>
      Placed(Frame(g, s.inferences[g].number), s.inferences[g].place) in s.taken
  }

  lemma {:induction false} HoldsTakenNext(s: State, e: Event, g: nat)
    requires Enabled(s, e) && HoldsTaken(s, g)
    ensures HoldsTaken(Apply(s, e), g)
  {
    match e
    case CaptureStep(h, outcome) =>
      CaptureFrame(s, h, outcome);
    case InferenceStep(h, outcome) =>
      InferenceFrame(s, h, outcome);
      InferenceHistories(s, h, outcome);
    case _ =>
      GuiFrame(s, e);
  }

  lemma {:induction false} RunHoldsTaken(r: Run, i: nat, g: nat)
    requires Legal(r) && i <= |r.events|
    ensures HoldsTaken(r.states[i], g)
  {
    if i > 0 {
      RunHoldsTaken(r, i - 1, g);
      StepOf(r, i - 1);
      HoldsTakenNext(r.states[i - 1], r.events[i - 1], g);
    }
  }

  /**
    Every result posted is the response to a frame that the video's own worker took from the inference queue:
    event `j` takes it, and the later event `k` brings the response.
   */
  lemma {:induction false} ResultsAnswerTakenFrames(r: Run, i: nat, g: nat, n: nat) returns (j: nat, k: nat, place: nat)
    requires Legal(r) && i <= |r.events| && VideoInference(g, n) in r.states[i].posted
    ensures j < k < i && TakesFrame(r, j, Frame(g, n), place) && Responds(r, k, g, n)
  {
    PostedExactlyWhenAnswered(r, i, g, n);
    k :| k < i && Responds(r, k, g, n);
    RunHoldsTaken(r, k, g);
    place := r.states[k].inferences[g].place;
    TakenExactly(r, k, Frame(g, n), place);
    j :| j < k && TakesFrame(r, j, Frame(g, n), place);
  }
}
