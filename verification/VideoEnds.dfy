/**
  How videos end, and which ends leave the stop flag unset, so that the capture worker outlives its video.
 */
module VideoEnds {
  import Slot = LatestSlot
  import opened VideoPipeline
  import opened VideoSafety
  import opened VideoTheorems

  /**
    The video's flag is set, or its capture worker is about to set it, or its inference worker has returned
    after it posted an error.
   */
  predicate Ended(s: State, g: nat)
    requires g in s.captures && g in s.inferences
  {
    || g in s.stopped
    || s.captures[g].pc == EndSet || s.captures[g].pc == ErrorSet
    || (s.inferences[g].pc == InferenceDone && VideoError(g) in s.posted)
  }

  ghost predicate NoticesAreOfEnded(s: State) {
    forall k | 0 <= k < |s.posted| && !s.posted[k].VideoInference? ::
      var g := s.posted[k].generation;
      g in s.captures && g in s.inferences && Ended(s, g)
  }

  ghost predicate DeadAreEnded(s: State) {
    forall g | g in s.captures && Dead(s.gui, g) :: g in s.inferences && Ended(s, g)
  }

  // ---------------------------------------------------------------------
  // One step
  // ---------------------------------------------------------------------

  /** A worker that has not ended posts only results; what it posts at its end says so. */
  lemma {:induction false} CaptureEnds(s: State, g: nat, outcome: Outcome)
    requires Enabled(s, CaptureStep(g, outcome))
    ensures
      var next := StepCapture(s, g, outcome);
      && s.stopped <= next.stopped && g in next.captures
      && (s.captures[g].pc == EndSet || s.captures[g].pc == ErrorSet ==> g in next.stopped)
      && (next.posted == s.posted
          || (|next.posted| == |s.posted| + 1 && next.posted[..|s.posted|] == s.posted
              && next.posted[|s.posted|].generation == g
              && (next.captures[g].pc == EndSet || next.captures[g].pc == ErrorSet)))
  {
    match s.captures[g].pc
    case PuttingVideo =>
    case PuttingInference =>
    case _ =>
  }

  lemma {:induction false} InferenceEnds(s: State, g: nat, outcome: Outcome)
    requires Enabled(s, InferenceStep(g, outcome))
    ensures
      var next := StepInference(s, g, outcome);
      && g in next.inferences
      && (next.posted == s.posted
          || (|next.posted| == |s.posted| + 1 && next.posted[..|s.posted|] == s.posted
              && next.posted[|s.posted|].generation == g
              && (next.posted[|s.posted|].VideoInference?
                  || (next.posted[|s.posted|] == VideoError(g) && next.inferences[g].pc == InferenceDone))))
  {
  }

  lemma {:induction false} PostedOnlyGrows(s: State, e: Event)
    requires Enabled(s, e)
    ensures s.posted <= Apply(s, e).posted
  {
    match e
    case CaptureStep(h, outcome) => CaptureEnds(s, h, outcome);
    case InferenceStep(h, outcome) => InferenceEnds(s, h, outcome);
    case _ => GuiFrame(s, e);
  }

  lemma {:induction false} EndedKept(s: State, e: Event, g: nat)
    requires Enabled(s, e) && Tokens(s) && g in s.captures && g in s.inferences && Ended(s, g)
    ensures
      var next := Apply(s, e);
      g in next.captures && g in next.inferences && Ended(next, g)
  {
    assert VideoError(g) in s.posted ==> VideoError(g) in Apply(s, e).posted by {
      PostedOnlyGrows(s, e);
    }
    match e
    case CaptureStep(h, outcome) =>
      CaptureFrame(s, h, outcome);
      CaptureEnds(s, h, outcome);
    case InferenceStep(h, outcome) =>
      InferenceFrame(s, h, outcome);
    case _ =>
      GuiFrame(s, e);
  }

  lemma {:induction false} NoticesKept(s: State, e: Event)
    requires Enabled(s, e) && Tokens(s) && NoticesAreOfEnded(s)
    ensures NoticesAreOfEnded(Apply(s, e))
  {
    var next := Apply(s, e);
    match e {
      case CaptureStep(h, outcome) =>
        CaptureFrame(s, h, outcome);
        CaptureEnds(s, h, outcome);
      case InferenceStep(h, outcome) =>
        InferenceFrame(s, h, outcome);
        InferenceEnds(s, h, outcome);
      case _ =>
        GuiFrame(s, e);
    }
    forall k | 0 <= k < |next.posted| && !next.posted[k].VideoInference?
      ensures
        var g := next.posted[k].generation;
        g in next.captures && g in next.inferences && Ended(next, g)
    {
      if k < |s.posted| {
        assert next.posted[k] == s.posted[k];
        EndedKept(s, e, s.posted[k].generation);
      }
    }
  }

  /** The GUI lets a video die only by setting its flag or for a notice. */
  lemma {:induction false} GuiKills(s: State, e: Event, g: nat)
    requires Enabled(s, e) && Tokens(s) && !e.CaptureStep? && !e.InferenceStep?
    requires g in s.captures && !Dead(s.gui, g) && Dead(Apply(s, e).gui, g)
    ensures
      || g in Apply(s, e).stopped
      || (e == PollNotice && !s.posted[s.polled].VideoInference? && s.posted[s.polled].generation == g)
  {
  }

  lemma {:induction false} LaunchIsAlive(s: State, e: Event, g: nat)
    requires Enabled(s, e) && Tokens(s) && !e.CaptureStep? && !e.InferenceStep?
    requires g !in s.captures && g in Apply(s, e).captures
    ensures !Dead(Apply(s, e).gui, g)
  {
  }

  lemma {:induction false} DeadKept(s: State, e: Event)
    requires Enabled(s, e) && Tokens(s) && NoticesAreOfEnded(s) && DeadAreEnded(s)
    ensures DeadAreEnded(Apply(s, e))
  {
    var next := Apply(s, e);
    forall g | g in next.captures && Dead(next.gui, g)
      ensures g in next.inferences && Ended(next, g)
    {
      DeadStep(s, e, g);
    }
  }

  lemma {:induction false} DeadStep(s: State, e: Event, g: nat)
    requires Enabled(s, e) && Tokens(s) && NoticesAreOfEnded(s) && DeadAreEnded(s)
    requires g in Apply(s, e).captures && Dead(Apply(s, e).gui, g)
    ensures g in Apply(s, e).inferences && Ended(Apply(s, e), g)
  {
    match e
    case CaptureStep(h, outcome) =>
      CaptureFrame(s, h, outcome);
      EndedKept(s, e, g);
    case InferenceStep(h, outcome) =>
      InferenceFrame(s, h, outcome);
      EndedKept(s, e, g);
    case _ =>
      GuiDeadStep(s, e, g);
  }

  lemma {:induction false} GuiDeadStep(s: State, e: Event, g: nat)
    requires Enabled(s, e) && Tokens(s) && NoticesAreOfEnded(s) && DeadAreEnded(s)
    requires !e.CaptureStep? && !e.InferenceStep?
    requires g in Apply(s, e).captures && Dead(Apply(s, e).gui, g)
    ensures g in Apply(s, e).inferences && Ended(Apply(s, e), g)
  {
    GuiFrame(s, e);
    if g !in s.captures {
      LaunchIsAlive(s, e, g);
      assert false;
    } else if Dead(s.gui, g) {
      EndedKept(s, e, g);
    } else {
      GuiKills(s, e, g);
      if g !in Apply(s, e).stopped {
        EndedKept(s, e, g);
      }
    }
  }

  // ---------------------------------------------------------------------
  // Whole runs
  // ---------------------------------------------------------------------

  lemma {:induction false} EndsHold(r: Run, i: nat)
    requires Legal(r) && i <= |r.events|
    ensures NoticesAreOfEnded(r.states[i]) && DeadAreEnded(r.states[i])
  {
    if i > 0 {
      EndsHold(r, i - 1);
      assert Tokens(r.states[i - 1]) by {
        RunKeepsInv(r, i - 1);
      }
      StepOf(r, i - 1);
      NoticesKept(r.states[i - 1], r.events[i - 1]);
      DeadKept(r.states[i - 1], r.events[i - 1]);
    }
  }

  /**
    In every run, a launched video that does not run any more has its stop flag set, or its capture worker is
    about to set it, or it was ended by an error of its inference worker, which has returned.
   */
  lemma {:induction false} DeadVideosHaveEnded(r: Run, i: nat, g: nat)
    requires Legal(r) && i <= |r.events| && g in r.states[i].captures && Dead(r.states[i].gui, g)
    ensures g in r.states[i].inferences && Ended(r.states[i], g)
  {
    EndsHold(r, i);
  }

  /** The capture worker of `g` sets its own flag at event `k`. */
  predicate SetsOwnFlag(r: Run, k: nat, g: nat)
    requires |r.states| == |r.events| + 1 && k < |r.events|
  {
    && r.events[k].CaptureStep? && r.events[k].g == g && g in r.states[k].captures
    && (r.states[k].captures[g].pc == EndSet || r.states[k].captures[g].pc == ErrorSet)
  }

  lemma {:induction false} FlagStep(s: State, e: Event, g: nat)
    requires Enabled(s, e) && Tokens(s) && g in s.captures && Dead(s.gui, g) && g !in s.stopped
    ensures g in Apply(s, e).captures
    ensures g in Apply(s, e).stopped <==>
      e.CaptureStep? && e.g == g && (s.captures[g].pc == EndSet || s.captures[g].pc == ErrorSet)
  {
    match e
    case CaptureStep(h, outcome) =>
      CaptureFrame(s, h, outcome);
      CaptureSetsOwnFlag(s, h, outcome);
    case InferenceStep(h, outcome) =>
      InferenceFrame(s, h, outcome);
    case _ =>
      GuiFrame(s, e);
  }

  lemma {:induction false} CaptureSetsOwnFlag(s: State, g: nat, outcome: Outcome)
    requires Enabled(s, CaptureStep(g, outcome))
    ensures StepCapture(s, g, outcome).stopped ==
      if s.captures[g].pc == EndSet || s.captures[g].pc == ErrorSet then s.stopped + {g} else s.stopped
  {
  }

  /**
    Once a video is dead with its flag unset, only its own capture worker ever sets the flag, at its own end:
    no stop and no start of another video reaches that worker.
   */
  lemma {:induction false} OnlyTheWorkerSetsTheFlag(r: Run, i: nat, j: nat, g: nat)
    requires Legal(r) && i <= j <= |r.events|
    requires g in r.states[i].captures && Dead(r.states[i].gui, g) && g !in r.states[i].stopped
    ensures g in r.states[j].captures && Dead(r.states[j].gui, g)
    ensures g in r.states[j].stopped <==> exists k: nat | i <= k < j :: SetsOwnFlag(r, k, g)
    decreases j - i
  {
    if i < j {
      OnlyTheWorkerSetsTheFlag(r, i, j - 1, g);
      FlagAfter(r, j - 1, g);
    }
  }

  lemma {:induction false} FlagAfter(r: Run, i: nat, g: nat)
    requires Legal(r) && i < |r.events| && g in r.states[i].captures && Dead(r.states[i].gui, g)
    ensures g in r.states[i + 1].captures && Dead(r.states[i + 1].gui, g)
    ensures g in r.states[i + 1].stopped <==> g in r.states[i].stopped || SetsOwnFlag(r, i, g)
  {
    var s, e := r.states[i], r.events[i];
    assert Enabled(s, e) && r.states[i + 1] == Apply(s, e) by {
      StepOf(r, i);
    }
    assert Dead(Apply(s, e).gui, g) by {
      GenerationsOnlyGrow(s, e);
    }
    if g in s.stopped {
      FlagStays(s, e, g);
    } else {
      assert Tokens(s) by {
        RunKeepsInv(r, i);
      }
      FlagStep(s, e, g);
    }
  }

  lemma {:induction false} FlagStays(s: State, e: Event, g: nat)
    requires Enabled(s, e) && g in s.captures && g in s.stopped
    ensures g in Apply(s, e).captures && g in Apply(s, e).stopped
  {
    match e
    case CaptureStep(h, outcome) =>
      CaptureFrame(s, h, outcome);
      CaptureSetsOwnFlag(s, h, outcome);
    case InferenceStep(h, outcome) =>
      InferenceFrame(s, h, outcome);
    case _ =>
      GuiFrame(s, e);
  }
}
