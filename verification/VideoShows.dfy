/**
  What the GUI shows, told by the states and events of a run alone: exactly the frames and results it
  polls while a video with their token runs, and exactly the notices of the video it holds the token of.
 */
module VideoShows {
  import opened VideoPipeline
  import opened VideoSafety

  // ---------------------------------------------------------------------
  // One event of a run
  // ---------------------------------------------------------------------

  /** A polled frame is shown if the video with its token runs, and otherwise the GUI stays as it is. */
  lemma {:induction false} PolledFrame(r: Run, i: nat)
    requires Legal(r) && i < |r.events| && r.events[i] == PollFrame
    ensures
      var s, next := r.states[i], r.states[i + 1];
      && s.video.content != []
      && next.video.content == s.video.content[1..] && |next.video.left| == |s.video.left| + 1
      && (var frame := s.video.content[0];
          next.gui ==
            if s.gui.running && frame.generation == s.gui.generation then
              s.gui.(shown := s.gui.shown + [Placed(frame, |s.video.left|)])
            else s.gui)
      && next.stopped == s.stopped && next.posted == s.posted && next.polled == s.polled
  {
    StepOf(r, i);
  }

  /**
    A polled result is shown if the video with its token runs; a polled end or error ends the video with
    its token, running or not; all else stays as it is.
   */
  lemma {:induction false} PolledNotice(r: Run, i: nat)
    requires Legal(r) && i < |r.events| && r.events[i] == PollNotice
    ensures
      var s, next := r.states[i], r.states[i + 1];
      && s.polled < |s.posted| && next.polled == s.polled + 1 && next.posted == s.posted
      && (var notice := s.posted[s.polled];
          next.gui ==
            if notice.generation != s.gui.generation then s.gui
            else if !notice.VideoInference? then
              s.gui.(running := false, notices := s.gui.notices + [notice])
            else if s.gui.running then
              s.gui.(results := s.gui.results + [Placed(Frame(notice.generation, notice.number), s.polled)])
            else s.gui)
      && next.stopped == s.stopped && next.video == s.video
  {
    StepOf(r, i);
  }

  /** Stopping a running video sets its flag and takes its token; without one it does nothing. */
  lemma {:induction false} StopEnds(r: Run, i: nat)
    requires Legal(r) && i < |r.events| && r.events[i] == Stop
    ensures
      var s, next := r.states[i], r.states[i + 1];
      if s.gui.running then
        && !next.gui.running && next.gui.generation == s.gui.generation + 1
        && next.stopped == s.stopped + {s.gui.generation}
        && next.gui.shown == s.gui.shown && next.gui.results == s.gui.results && next.gui.notices == s.gui.notices
      else next == s
  {
    StepOf(r, i);
    TokensOfRun(r, i);
  }

  /** A start stops the running video, if any, and makes one with a token no worker has seen. */
  lemma {:induction false} StartBegins(r: Run, i: nat)
    requires Legal(r) && i < |r.events| && r.events[i] == Start
    ensures
      var s, next := r.states[i], r.states[i + 1];
      && next.gui.running && next.gui.generation > s.gui.generation
      && next.gui.generation !in next.captures && next.gui.generation !in next.inferences
      && next.stopped == (if s.gui.running then s.stopped + {s.gui.generation} else s.stopped)
      && next.gui.shown == s.gui.shown && next.gui.results == s.gui.results && next.gui.notices == s.gui.notices
  {
    StepOf(r, i);
    TokensOfRun(r, i);
  }

  /** Nothing else changes the GUI. */
  lemma {:induction false} OthersLeaveTheGui(r: Run, i: nat)
    requires Legal(r) && i < |r.events|
    requires r.events[i].GuiStep? || r.events[i].CaptureStep? || r.events[i].InferenceStep?
    ensures r.states[i + 1].gui == r.states[i].gui && r.states[i + 1].polled == r.states[i].polled
  {
    StepOf(r, i);
    match r.events[i]
    case CaptureStep(g, outcome) => CaptureFrame(r.states[i], g, outcome);
    case InferenceStep(g, outcome) => InferenceFrame(r.states[i], g, outcome);
    case _ =>
  }

  /** Workers are only ever added in pairs, for the video that runs and has none yet, each at its beginning. */
  lemma {:induction false} LaunchStartsBothWorkers(r: Run, i: nat, g: nat)
    requires Legal(r) && i < |r.events| && g in r.states[i + 1].captures && g !in r.states[i].captures
    ensures
      var s, next := r.states[i], r.states[i + 1];
      && s.gui.running && g == s.gui.generation
      && next.captures == s.captures[g := Capture(Opening, 0, 0, 0)]
      && g !in s.inferences && next.inferences == s.inferences[g := Inference(Top, 0, 0, 0)]
  {
    StepOf(r, i);
    TokensOfRun(r, i);
    OnlyLaunchingAddsWorkers(r.states[i], r.events[i]);
  }

  lemma {:induction false} TokensOfRun(r: Run, i: nat)
    requires Legal(r) && i <= |r.events|
    ensures Tokens(r.states[i])
  {
    if i > 0 {
      TokensOfRun(r, i - 1);
      StepOf(r, i - 1);
      TokensKept(r.states[i - 1], r.events[i - 1]);
    }
  }

  // ---------------------------------------------------------------------
  // Whole runs
  // ---------------------------------------------------------------------

  /** Event `k` polls this frame from this place while the video with its token runs. */
  predicate FramePolled(r: Run, k: nat, frame: Frame, place: nat)
    requires k < |r.events| && k < |r.states|
  {
    var s := r.states[k];
    && r.events[k] == PollFrame && s.video.content != [] && s.video.content[0] == frame && |s.video.left| == place
    && s.gui.running && s.gui.generation == frame.generation
  }

  /** Event `k` polls this result as notice number `place` while the video with its token runs. */
  predicate ResultPolled(r: Run, k: nat, frame: Frame, place: nat)
    requires k < |r.events| && k < |r.states|
  {
    var s := r.states[k];
    && r.events[k] == PollNotice && s.polled == place && place < |s.posted|
    && s.posted[place] == VideoInference(frame.generation, frame.number)
    && s.gui.running && s.gui.generation == frame.generation
  }

  lemma {:induction false} ShownNext(r: Run, i: nat, frame: Frame, place: nat)
    requires Legal(r) && i < |r.events|
    ensures Placed(frame, place) in r.states[i + 1].gui.shown <==>
      Placed(frame, place) in r.states[i].gui.shown || FramePolled(r, i, frame, place)
    ensures Placed(frame, place) in r.states[i + 1].gui.results <==>
      Placed(frame, place) in r.states[i].gui.results || ResultPolled(r, i, frame, place)
  {
    match r.events[i]
    case Start => StartBegins(r, i);
    case Stop => StopEnds(r, i);
    case PollFrame => PolledFrame(r, i);
    case PollNotice => PolledNotice(r, i);
    case _ => OthersLeaveTheGui(r, i);
  }

  /** A frame is among those shown if and only if it was polled while its video ran. */
  lemma {:induction false} ShownExactlyWhenPolled(r: Run, j: nat, frame: Frame, place: nat)
    requires Legal(r) && j <= |r.events|
    ensures Placed(frame, place) in r.states[j].gui.shown <==> exists k: nat | k < j :: FramePolled(r, k, frame, place)
  {
    if j > 0 {
      ShownExactlyWhenPolled(r, j - 1, frame, place);
      ShownNext(r, j - 1, frame, place);
    }
  }

  /** A result is among those shown if and only if it was polled while its video ran. */
  lemma {:induction false} AnsweredExactlyWhenPolled(r: Run, j: nat, frame: Frame, place: nat)
    requires Legal(r) && j <= |r.events|
    ensures
      Placed(frame, place) in r.states[j].gui.results <==> exists k: nat | k < j :: ResultPolled(r, k, frame, place)
  {
    if j > 0 {
      AnsweredExactlyWhenPolled(r, j - 1, frame, place);
      ShownNext(r, j - 1, frame, place);
    }
  }

  // ---------------------------------------------------------------------
  // Clearing
  // ---------------------------------------------------------------------

  /** While a start is under way, the queues it is through with have lost whatever they held when it began. */
  ghost predicate ClearedSince(from: State, s: State) {
    && |from.video.put| <= |s.video.put| && |from.inference.put| <= |s.inference.put|
    && (s.guiPc == ClearingInference || s.guiPc == Launching ==> |s.video.left| >= |from.video.put|)
    && (s.guiPc == Launching ==> |s.inference.left| >= |from.inference.put|)
  }

  lemma {:induction false} ClearedNext(from: State, s: State, e: Event)
    requires Enabled(s, e) && s.guiPc != Ready && Tokens(s) && Slots(s) && ClearedSince(from, s)
    ensures ClearedSince(from, Apply(s, e))
  {
    match e
    case CaptureStep(g, outcome) =>
      CaptureFrame(s, g, outcome);
      CaptureHistories(s, g, outcome);
      CapturePutsGrow(s, g, outcome);
    case InferenceStep(g, outcome) =>
      InferenceFrame(s, g, outcome);
      InferenceHistories(s, g, outcome);
    case _ =>
      GuiFrame(s, e);
  }

  lemma {:induction false} CapturePutsGrow(s: State, g: nat, outcome: Outcome)
    requires Enabled(s, CaptureStep(g, outcome))
    ensures |s.video.put| <= |StepCapture(s, g, outcome).video.put|
    ensures |s.inference.put| <= |StepCapture(s, g, outcome).inference.put|
  {
    match s.captures[g].pc
    case PuttingVideo =>
    case PuttingInference =>
    case _ =>
  }

  lemma {:induction false} SlotsOfRun(r: Run, i: nat)
    requires Legal(r) && i <= |r.events|
    ensures Slots(r.states[i])
  {
    if i == 0 {
      forall g ensures InPut(INITIAL, g) {
      }
    } else {
      SlotsOfRun(r, i - 1);
      TokensOfRun(r, i - 1);
      StepOf(r, i - 1);
      SlotsKept(r.states[i - 1], r.events[i - 1]);
    }
  }

  lemma {:induction false} ClearedUntil(r: Run, i: nat, j: nat)
    requires Legal(r) && i < j <= |r.events| && r.events[i] == Start
    requires forall k | i < k < j :: r.states[k].guiPc != Ready
    ensures ClearedSince(r.states[i], r.states[j])
    decreases j
  {
    if j == i + 1 {
      StepOf(r, i);
    } else {
      ClearedUntil(r, i, j - 1);
      TokensOfRun(r, j - 1);
      SlotsOfRun(r, j - 1);
      StepOf(r, j - 1);
      ClearedNext(r.states[i], r.states[j - 1], r.events[j - 1]);
    }
  }

  /** The workers of a video are only started when everything queued before its start has left both queues. */
  lemma {:induction false} StartClearsTheQueues(r: Run, i: nat, j: nat)
    requires Legal(r) && i < j < |r.events| && r.events[i] == Start
    requires forall k | i < k < j :: r.states[k].guiPc != Ready
    requires r.states[j + 1].captures.Keys != r.states[j].captures.Keys
    ensures |r.states[j].video.left| >= |r.states[i].video.put|
    ensures |r.states[j].inference.left| >= |r.states[i].inference.put|
  {
    ClearedUntil(r, i, j);
    StepOf(r, j);
    OnlyLaunchingAddsWorkers(r.states[j], r.events[j]);
  }

  lemma {:induction false} OnlyLaunchingAddsWorkers(s: State, e: Event)
    requires Enabled(s, e)
    ensures Apply(s, e).captures.Keys != s.captures.Keys ==> e == GuiStep && s.guiPc == Launching
  {
    match e
    case CaptureStep(g, outcome) => CaptureFrame(s, g, outcome);
    case InferenceStep(g, outcome) => InferenceFrame(s, g, outcome);
    case _ => GuiFrame(s, e);
  }
}
