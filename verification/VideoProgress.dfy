/**
  Workers end: after the stop flag of a video is set, its workers have only a few steps of their own left,
  and nothing keeps them from taking them.
 */
module VideoProgress {
  import Slot = LatestSlot
  import opened VideoPipeline
  import opened VideoSafety
  import opened VideoTheorems

  // ---------------------------------------------------------------------
  // The capture worker
  // ---------------------------------------------------------------------

  /** The most steps of its own that a capture worker can take once its stop flag is set. */
  function CaptureStepsLeft(s: State, g: nat): nat
    requires g in s.captures
  {
    match s.captures[g].pc
    case Opening => 3
    case Looping => 2
    case Reading => 9
    case PuttingVideo =>
      (match Slot.PhaseOf(s.video, g)
       case FirstPut(_) => 8
       case MakeRoom(_) => 7
       case SecondPut(_) => 6
       case Raised(_) => 2
       case Idle => 0)
    case PuttingInference =>
      (match Slot.PhaseOf(s.inference, g)
       case FirstPut(_) => 5
       case MakeRoom(_) => 4
       case SecondPut(_) => 3
       case Raised(_) => 2
       case Idle => 0)
    case EndCheck => 1
    case EndPost => 2
    case EndSet => 1
    case ErrorCheck => 1
    case ErrorPost => 2
    case ErrorSet => 1
    case CaptureDone => 0
  }

  lemma {:induction false} OwnCaptureStep(s: State, g: nat, outcome: Outcome)
    requires Enabled(s, CaptureStep(g, outcome)) && g in s.stopped && InPut(s, g)
    ensures
      var next := StepCapture(s, g, outcome);
      g in next.captures && g in next.stopped && CaptureStepsLeft(next, g) < CaptureStepsLeft(s, g)
  {
    if s.captures[g].pc == PuttingVideo {
      OwnVideoStep(s, g);
    } else if s.captures[g].pc == PuttingInference {
      OwnInferenceStep(s, g);
    }
  }

  lemma {:induction false} OwnVideoStep(s: State, g: nat)
    requires g in s.captures && s.captures[g].pc == PuttingVideo && !Slot.PhaseOf(s.video, g).Idle?
    ensures g in StepPutVideo(s, g).captures && CaptureStepsLeft(StepPutVideo(s, g), g) < CaptureStepsLeft(s, g)
    ensures StepPutVideo(s, g).stopped == s.stopped
  {
  }

  lemma {:induction false} OwnInferenceStep(s: State, g: nat)
    requires g in s.captures && s.captures[g].pc == PuttingInference && !Slot.PhaseOf(s.inference, g).Idle?
    ensures g in StepPutInference(s, g).captures && CaptureStepsLeft(StepPutInference(s, g), g) < CaptureStepsLeft(s, g)
    ensures StepPutInference(s, g).stopped == s.stopped
  {
  }

  lemma {:induction false} OtherStep(s: State, e: Event, g: nat)
    requires Enabled(s, e) && Tokens(s) && g in s.captures && g in s.stopped
    requires e.CaptureStep? ==> e.g != g
    ensures
      var next := Apply(s, e);
      && g in next.captures && g in next.stopped && next.captures[g] == s.captures[g]
      && Slot.PhaseOf(next.video, g) == Slot.PhaseOf(s.video, g)
      && Slot.PhaseOf(next.inference, g) == Slot.PhaseOf(s.inference, g)
  {
    match e
    case CaptureStep(h, outcome) =>
      CaptureFrame(s, h, outcome);
      CaptureLeavesOthers(s, h, outcome, g);
      StopsAreFinal(s, h, outcome);
    case InferenceStep(h, outcome) =>
      InferenceFrame(s, h, outcome);
      InferenceOnlyTakes(s, h, outcome);
    case _ =>
      GuiFrame(s, e);
  }

  /** The steps of capture worker `g` among events `i..j`. */
  function CaptureSteps(events: seq<Event>, g: nat, i: nat, j: nat): nat
    requires i <= j <= |events|
    decreases j
  {
    if i == j then 0
    else CaptureSteps(events, g, i, j - 1) + (if events[j - 1].CaptureStep? && events[j - 1].g == g then 1 else 0)
  }

  /** After the stop flag is set a capture worker takes at most nine more steps, whatever all others do. */
  lemma {:induction false} CaptureEndsSoon(r: Run, g: nat, i: nat, j: nat)
    requires Legal(r) && i <= j <= |r.events| && g in r.states[i].captures && g in r.states[i].stopped
    ensures g in r.states[j].captures && g in r.states[j].stopped
    ensures CaptureSteps(r.events, g, i, j) + CaptureStepsLeft(r.states[j], g) <= CaptureStepsLeft(r.states[i], g) <= 9
    decreases j
  {
    if i < j {
      CaptureEndsSoon(r, g, i, j - 1);
      CaptureProgress(r, g, j - 1);
    }
  }

  lemma {:induction false} CaptureProgress(r: Run, g: nat, i: nat)
    requires Legal(r) && i < |r.events| && g in r.states[i].captures && g in r.states[i].stopped
    ensures g in r.states[i + 1].captures && g in r.states[i + 1].stopped
    ensures CaptureStepsLeft(r.states[i + 1], g)
      + (if r.events[i].CaptureStep? && r.events[i].g == g then 1 else 0) <= CaptureStepsLeft(r.states[i], g)
  {
    var s, e := r.states[i], r.events[i];
    assert Enabled(s, e) && r.states[i + 1] == Apply(s, e) by {
      StepOf(r, i);
    }
    assert Tokens(s) && InPut(s, g) by {
      RunKeepsInv(r, i);
    }
    if e.CaptureStep? && e.g == g {
      OwnCaptureStep(s, g, e.outcome);
    } else {
      OtherStep(s, e, g);
    }
  }

  /** A capture worker that has not ended can always take its next step. */
  lemma {:induction false} CaptureIsNeverStuck(r: Run, g: nat, i: nat, outcome: Outcome)
    requires Legal(r) && i <= |r.events| && g in r.states[i].captures && r.states[i].captures[g].pc != CaptureDone
    ensures Enabled(r.states[i], CaptureStep(g, outcome))
  {
    assert InPut(r.states[i], g) by {
      RunKeepsInv(r, i);
    }
  }

  // ---------------------------------------------------------------------
  // The inference worker
  // ---------------------------------------------------------------------

  /** The most steps of its own that an inference worker can take once its stop flag is set; it is never stuck. */
  function InferenceStepsLeft(pc: InferencePc): nat {
    match pc
    case Top => 1
    case Getting => 3
    case Working => 2
    case FailCheck => 1
    case FailPost => 1
    case InferenceDone => 0
  }

  function InferenceSteps(events: seq<Event>, g: nat, i: nat, j: nat): nat
    requires i <= j <= |events|
    decreases j
  {
    if i == j then 0
    else InferenceSteps(events, g, i, j - 1) + (if events[j - 1].InferenceStep? && events[j - 1].g == g then 1 else 0)
  }

  lemma {:induction false} InferenceProgress(s: State, e: Event, g: nat)
    requires Enabled(s, e) && Tokens(s) && g in s.inferences && g in s.stopped
    ensures
      var next := Apply(s, e);
      && g in next.inferences && g in next.stopped
      && InferenceStepsLeft(next.inferences[g].pc) + (if e.InferenceStep? && e.g == g then 1 else 0)
           <= InferenceStepsLeft(s.inferences[g].pc)
  {
    match e
    case CaptureStep(h, outcome) =>
      CaptureFrame(s, h, outcome);
      StopsAreFinal(s, h, outcome);
    case InferenceStep(h, outcome) =>
      InferenceFrame(s, h, outcome);
    case _ =>
      GuiFrame(s, e);
  }

  /** After the stop flag is set an inference worker takes at most three more steps. */
  lemma {:induction false} InferenceEndsSoon(r: Run, g: nat, i: nat, j: nat)
    requires Legal(r) && i <= j <= |r.events| && g in r.states[i].inferences && g in r.states[i].stopped
    ensures g in r.states[j].inferences && g in r.states[j].stopped
    ensures InferenceSteps(r.events, g, i, j) + InferenceStepsLeft(r.states[j].inferences[g].pc)
      <= InferenceStepsLeft(r.states[i].inferences[g].pc) <= 3
    decreases j
  {
    if i < j {
      InferenceEndsSoon(r, g, i, j - 1);
      var s, e := r.states[j - 1], r.events[j - 1];
      assert Enabled(s, e) && r.states[j] == Apply(s, e) by {
        StepOf(r, j - 1);
      }
      assert Tokens(s) by {
        RunKeepsInv(r, j - 1);
      }
      InferenceProgress(s, e, g);
    }
  }

  /** The inference worker `g` takes a frame at event `k`; if it is of another video, it drops it. */
  predicate TakesFrame(r: Run, k: nat, g: nat)
    requires |r.states| == |r.events| + 1 && k < |r.events|
  {
    && r.events[k].InferenceStep? && r.events[k].g == g && g in r.states[k].inferences
    && r.states[k].inferences[g].pc == Getting && r.states[k].inference.content != []
  }

  function FramesTaken(r: Run, g: nat, i: nat, j: nat): nat
    requires |r.states| == |r.events| + 1 && i <= j <= |r.events|
    decreases j
  {
    if i == j then 0 else FramesTaken(r, g, i, j - 1) + (if TakesFrame(r, j - 1, g) then 1 else 0)
  }

  lemma {:induction false} GettingOnlyOnce(s: State, e: Event, g: nat)
    requires Enabled(s, e) && Tokens(s) && g in s.inferences && g in s.stopped
    ensures
      var next := Apply(s, e);
      && g in next.inferences && g in next.stopped
      && (next.inferences[g].pc == Getting ==> s.inferences[g].pc == Getting && !(e.InferenceStep? && e.g == g))
  {
    match e
    case CaptureStep(h, outcome) =>
      CaptureFrame(s, h, outcome);
      StopsAreFinal(s, h, outcome);
    case InferenceStep(h, outcome) =>
      InferenceFrame(s, h, outcome);
    case _ =>
      GuiFrame(s, e);
  }

  /** After its stop flag is set, an inference worker takes at most one more frame, its own or the next video's. */
  lemma {:induction false} AtMostOneLateFrame(r: Run, g: nat, i: nat, j: nat)
    requires Legal(r) && i <= j <= |r.events| && g in r.states[i].inferences && g in r.states[i].stopped
    ensures g in r.states[j].inferences && g in r.states[j].stopped
    ensures FramesTaken(r, g, i, j) + (if r.states[j].inferences[g].pc == Getting then 1 else 0) <= 1
    decreases j
  {
    if i < j {
      AtMostOneLateFrame(r, g, i, j - 1);
      var s, e := r.states[j - 1], r.events[j - 1];
      assert Enabled(s, e) && r.states[j] == Apply(s, e) by {
        StepOf(r, j - 1);
      }
      assert Tokens(s) by {
        RunKeepsInv(r, j - 1);
      }
      GettingOnlyOnce(s, e, g);
    }
  }
}
