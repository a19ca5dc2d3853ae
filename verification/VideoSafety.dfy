/**
  What every interleaving of the video pipeline keeps, and what follows for whole runs.
 */
module VideoSafety {
  import Slot = LatestSlot
  import opened VideoPipeline

  // ---------------------------------------------------------------------
  // Generations
  // ---------------------------------------------------------------------

  /** The video with token `g` has been stopped, has ended, or has been replaced. */
  predicate Dead(gui: Gui, g: nat) {
    g < gui.generation || (g == gui.generation && !gui.running)
  }

  lemma {:induction false} GenerationsOnlyGrow(s: State, e: Event)
    requires Enabled(s, e)
    ensures s.gui.generation <= Apply(s, e).gui.generation
    ensures forall g :: Dead(s.gui, g) ==> Dead(Apply(s, e).gui, g)
  {
    match e
    case CaptureStep(g, outcome) => CaptureFrame(s, g, outcome);
    case InferenceStep(g, outcome) => InferenceFrame(s, g, outcome);
    case _ =>
  }

  /** What a capture worker leaves alone. */
  lemma {:induction false} CaptureFrame(s: State, g: nat, outcome: Outcome)
    requires Enabled(s, CaptureStep(g, outcome))
    ensures
      var next := StepCapture(s, g, outcome);
      && next.gui == s.gui && next.guiPc == s.guiPc && next.current == s.current
      && next.polled == s.polled && next.inferences == s.inferences && next.taken == s.taken
      && g in next.captures && next.captures == s.captures[g := next.captures[g]]
      && next.captures.Keys == s.captures.Keys
  {
    match s.captures[g].pc
    case PuttingVideo =>
    case PuttingInference =>
    case _ =>
  }

  /** A capture worker leaves the other workers' puts where they are, and takes back no stop. */
  lemma {:induction false} CaptureLeavesOthers(s: State, g: nat, outcome: Outcome, h: nat)
    requires Enabled(s, CaptureStep(g, outcome)) && h != g
    ensures
      var next := StepCapture(s, g, outcome);
      && Slot.PhaseOf(next.video, h) == Slot.PhaseOf(s.video, h)
      && Slot.PhaseOf(next.inference, h) == Slot.PhaseOf(s.inference, h)
  {
    match s.captures[g].pc
    case PuttingVideo =>
    case PuttingInference =>
    case _ =>
  }

  lemma {:induction false} StopsAreFinal(s: State, g: nat, outcome: Outcome)
    requires Enabled(s, CaptureStep(g, outcome))
    ensures s.stopped <= StepCapture(s, g, outcome).stopped
  {
  }

  /** What a capture worker adds to the histories. */
  lemma {:induction false} CaptureHistories(s: State, g: nat, outcome: Outcome)
    requires Enabled(s, CaptureStep(g, outcome))
    ensures
      var next := StepCapture(s, g, outcome);
      && s.video.left <= next.video.left && s.inference.left <= next.inference.left
      && (next.posted == s.posted || next.posted == s.posted + [VideoEnd(g)]
          || next.posted == s.posted + [VideoError(g)])
  {
    match s.captures[g].pc
    case PuttingVideo =>
    case PuttingInference =>
    case _ =>
  }

  /** What an inference worker leaves alone. */
  lemma {:induction false} InferenceFrame(s: State, g: nat, outcome: Outcome)
    requires Enabled(s, InferenceStep(g, outcome))
    ensures
      var next := StepInference(s, g, outcome);
      && next.gui == s.gui && next.guiPc == s.guiPc && next.current == s.current
      && next.polled == s.polled && next.captures == s.captures && next.video == s.video
      && next.stopped == s.stopped
      && next.inferences.Keys == s.inferences.Keys
      && g in next.inferences && next.inferences == s.inferences[g := next.inferences[g]]
  {
  }

  /** What an inference worker adds to the histories: a taken frame or an answer only for its own video. */
  lemma {:induction false} InferenceHistories(s: State, g: nat, outcome: Outcome)
    requires Enabled(s, InferenceStep(g, outcome))
    ensures
      var next, w := StepInference(s, g, outcome), s.inferences[g];
      && s.inference.left <= next.inference.left && next.inference.put == s.inference.put
      && (next.posted == s.posted || next.posted == s.posted + [VideoError(g)]
          || (w.pc == Working && next.posted == s.posted + [VideoInference(g, w.number)]
              && next.inferences[g] == w.(pc := Top, result := w.number)))
      && (next.posted != s.posted + [VideoInference(g, w.number)] ==>
            next.inferences[g].result == w.result
            && (if w.pc == Getting && s.inference.content != [] && s.inference.content[0].generation == g then
                  && next.inferences[g].number == s.inference.content[0].number
                  && next.inferences[g].place == |s.inference.left|
                  && next.inference.left == s.inference.left + [Slot.Leaving(s.inference.content[0], Slot.Consumed)]
                  && next.taken == s.taken + [Placed(s.inference.content[0], |s.inference.left|)]
                else
                  && next.inferences[g].number == w.number && next.inferences[g].place == w.place
                  && (next.inferences[g].pc == Working ==> w.pc == Working)
                  && next.taken == s.taken))
  {
  }

  /** What the GUI thread leaves alone. */
  lemma {:induction false} GuiFrame(s: State, e: Event)
    requires Enabled(s, e) && !e.CaptureStep? && !e.InferenceStep?
    ensures
      var next := Apply(s, e);
      && next.posted == s.posted && next.taken == s.taken
      && next.video.put == s.video.put && next.inference.put == s.inference.put
      && next.video.producers == s.video.producers && next.inference.producers == s.inference.producers
      && s.video.left <= next.video.left && s.inference.left <= next.inference.left
    ensures
      var next := Apply(s, e);
      if e == GuiStep && s.guiPc == Launching then
        && next.captures == s.captures[s.current := Capture(Opening, 0, 0, 0)]
        && next.inferences == s.inferences[s.current := Inference(Top, 0, 0, 0)]
      else
        next.captures == s.captures && next.inferences == s.inferences
  {
  }

  lemma {:induction false} GenerationsGrowInRuns(r: Run, i: nat, j: nat)
    requires Legal(r) && i <= j <= |r.events|
    ensures r.states[i].gui.generation <= r.states[j].gui.generation
    ensures forall g :: Dead(r.states[i].gui, g) ==> Dead(r.states[j].gui, g)
    decreases j - i
  {
    if i < j {
      GenerationsGrowInRuns(r, i, j - 1);
      StepOf(r, j - 1);
      GenerationsOnlyGrow(r.states[j - 1], r.events[j - 1]);
    }
  }

  /** Once the video of `g` is not running any more, nothing of `g` is ever shown again. */
  lemma {:induction false} DeadGenerationsAreNeverShown(r: Run, i: nat, j: nat, g: nat)
    requires Legal(r) && i <= j < |r.events| && Dead(r.states[i].gui, g)
    ensures
      var s, next := r.states[j], r.states[j + 1];
      && Enabled(s, r.events[j])
      && (r.events[j] == PollFrame && s.video.content[0].generation == g ==> next.gui == s.gui)
      && (r.events[j] == PollNotice && s.posted[s.polled].VideoInference? && s.posted[s.polled].generation == g ==>
            next.gui == s.gui)
  {
    GenerationsGrowInRuns(r, i, j);
    StepOf(r, j);
  }

  /** After a running video was stopped, no frame and no event of it or of an older one changes the GUI. */
  lemma {:induction false} StoppedVideosAreSilent(r: Run, i: nat, j: nat, g: nat)
    requires Legal(r) && i < j < |r.events|
    requires (r.events[i] == Stop || r.events[i] == Start) && r.states[i].gui.running
    requires g <= r.states[i].gui.generation
    ensures
      var s, next := r.states[j], r.states[j + 1];
      && Enabled(s, r.events[j])
      && (r.events[j] == PollFrame && s.video.content[0].generation == g ==> next.gui == s.gui)
      && (r.events[j] == PollNotice && s.posted[s.polled].generation == g ==> next.gui == s.gui)
  {
    StepOf(r, i);
    GenerationsGrowInRuns(r, i + 1, j);
    StepOf(r, j);
  }

  // ---------------------------------------------------------------------
  // Tokens: every tag belongs to a video that was launched
  // ---------------------------------------------------------------------

  ghost predicate Tokens(s: State) {
    && s.captures.Keys == s.inferences.Keys
    && (forall g | g in s.captures :: g <= s.current)
    && s.current <= s.gui.generation
    && (s.gui.running ==> s.gui.generation == s.current)
    && (s.guiPc != Ready ==> s.gui.running && s.current !in s.captures)
    && (forall i | 0 <= i < |s.posted| :: s.posted[i].generation in s.captures)
  }

  /** Each worker is inside a put exactly when its program counter says so, with its own last frame in hand. */
  ghost predicate InPut(s: State, g: nat) {
    var video, inference := Slot.InHand(Slot.PhaseOf(s.video, g)), Slot.InHand(Slot.PhaseOf(s.inference, g));
    if g !in s.captures then video == [] && inference == []
    else
      var c := s.captures[g];
      && video == (if c.pc == PuttingVideo then [Frame(g, c.number)] else [])
      && inference == (if c.pc == PuttingInference then [Frame(g, c.number)] else [])
  }

  ghost predicate Slots(s: State) {
    && Slot.Conserved(s.video) && Slot.Conserved(s.inference)
    && forall g :: InPut(s, g)
  }

  lemma {:induction false} TokensKept(s: State, e: Event)
    requires Enabled(s, e) && Tokens(s)
    ensures Tokens(Apply(s, e))
  {
    match e
    case CaptureStep(g, outcome) =>
      CaptureFrame(s, g, outcome);
      CaptureHistories(s, g, outcome);
    case InferenceStep(g, outcome) =>
      InferenceFrame(s, g, outcome);
      InferenceHistories(s, g, outcome);
    case _ =>
      GuiTokens(s, e);
  }

  lemma {:induction false} GuiTokens(s: State, e: Event)
    requires Enabled(s, e) && Tokens(s) && !e.CaptureStep? && !e.InferenceStep?
    ensures Tokens(Apply(s, e))
  {
  }

  lemma {:induction false} SlotsKept(s: State, e: Event)
    requires Enabled(s, e) && Slots(s) && Tokens(s)
    ensures Slots(Apply(s, e))
  {
    match e
    case CaptureStep(g, outcome) => CaptureSlots(s, g, outcome);
    case InferenceStep(g, outcome) => InferenceSlots(s, g, outcome);
    case _ => GuiSlots(s, e);
  }

  lemma {:induction false} GuiSlots(s: State, e: Event)
    requires Enabled(s, e) && Slots(s) && Tokens(s) && !e.CaptureStep? && !e.InferenceStep?
    ensures Slots(Apply(s, e))
  {
    var next := Apply(s, e);
    GuiFrame(s, e);
    GuiConserves(s, e);
    forall g ensures InPut(next, g) {
      assert InPut(s, g);
    }
  }

  lemma {:induction false} GuiConserves(s: State, e: Event)
    requires Enabled(s, e) && !e.CaptureStep? && !e.InferenceStep?
    requires Slot.Conserved(s.video) && Slot.Conserved(s.inference)
    ensures Slot.Conserved(Apply(s, e).video) && Slot.Conserved(Apply(s, e).inference)
  {
    Slot.ConservedKept(s.video, Slot.Take(Slot.Consumed));
    Slot.ConservedKept(s.video, Slot.Take(Slot.Cleared));
    Slot.ConservedKept(s.inference, Slot.Take(Slot.Cleared));
  }

  lemma {:induction false} CaptureSlots(s: State, g: nat, outcome: Outcome)
    requires Enabled(s, CaptureStep(g, outcome)) && Slots(s)
    ensures Slots(StepCapture(s, g, outcome))
  {
    if s.captures[g].pc == PuttingVideo {
      PutVideoSlots(s, g);
    } else if s.captures[g].pc == PuttingInference {
      PutInferenceSlots(s, g);
    } else {
      PlainCaptureSlots(s, g, outcome);
    }
  }

  lemma {:induction false} PlainCaptureSlots(s: State, g: nat, outcome: Outcome)
    requires Enabled(s, CaptureStep(g, outcome)) && Slots(s)
    requires s.captures[g].pc != PuttingVideo && s.captures[g].pc != PuttingInference
    ensures Slots(StepCapture(s, g, outcome))
  {
    var next := StepCapture(s, g, outcome);
    CaptureFrame(s, g, outcome);
    assert InPut(s, g);
    if s.captures[g].pc == Reading && outcome == Good {
      Slot.ConservedKept(s.video, Slot.Begin(g, Frame(g, s.captures[g].number + 1)));
    }
    forall h ensures InPut(next, h) {
      assert InPut(s, h);
    }
  }

  lemma {:induction false} PutVideoSlots(s: State, g: nat)
    requires Slots(s) && g in s.captures && s.captures[g].pc == PuttingVideo
    requires !Slot.PhaseOf(s.video, g).Idle?
    ensures Slots(StepPutVideo(s, g))
  {
    var next := StepPutVideo(s, g);
    assert InPut(s, g);
    Slot.ConservedKept(s.video, Slot.Advance(g));
    forall h ensures InPut(next, h) {
      assert InPut(s, h);
    }
  }

  lemma {:induction false} PutInferenceSlots(s: State, g: nat)
    requires Slots(s) && g in s.captures && s.captures[g].pc == PuttingInference
    requires !Slot.PhaseOf(s.inference, g).Idle?
    ensures Slots(StepPutInference(s, g))
  {
    var next := StepPutInference(s, g);
    assert InPut(s, g);
    Slot.ConservedKept(s.inference, Slot.Advance(g));
    forall h ensures InPut(next, h) {
      assert InPut(s, h);
    }
  }

  lemma {:induction false} InferenceSlots(s: State, g: nat, outcome: Outcome)
    requires Enabled(s, InferenceStep(g, outcome)) && Slots(s)
    ensures Slots(StepInference(s, g, outcome))
  {
    var next := StepInference(s, g, outcome);
    InferenceFrame(s, g, outcome);
    if s.inferences[g].pc == Getting && s.inference.content != [] {
      Slot.ConservedKept(s.inference, Slot.Take(Slot.Consumed));
    }
    forall h ensures InPut(next, h) {
      assert InPut(s, h);
    }
  }

  // ---------------------------------------------------------------------
  // Order: what is put, shown, taken and answered follows the captured frames
  // ---------------------------------------------------------------------

  ghost predicate SortedPerVideo(put: seq<Frame>) {
    forall i, j | 0 <= i < j < |put| && put[i].generation == put[j].generation :: put[i].number < put[j].number
  }

  /** Frames below this number may have been put in the display queue. */
  function VideoLimit(c: Capture): nat {
    if c.pc == PuttingVideo then c.number else c.number + 1
  }

  /** Frames below this number may have been put in the inference queue. */
  function InferenceLimit(c: Capture): nat {
    if c.pc == PuttingVideo || c.pc == PuttingInference then c.number else c.number + 1
  }

  ghost predicate PutsInOrder(s: State) {
    && SortedPerVideo(s.video.put) && SortedPerVideo(s.inference.put)
    && (forall i | 0 <= i < |s.video.put| ::
          var f := s.video.put[i];
          f.generation in s.captures && 1 <= f.number < VideoLimit(s.captures[f.generation]))
    && (forall i | 0 <= i < |s.inference.put| ::
          var f := s.inference.put[i];
          f.generation in s.captures && 1 <= f.number < InferenceLimit(s.captures[f.generation]))
    && (forall g | g in s.captures && (s.captures[g].pc == PuttingVideo || s.captures[g].pc == PuttingInference) ::
          s.captures[g].number >= 1)
  }

  lemma {:induction false} PutsInOrderKept(s: State, e: Event)
    requires Enabled(s, e) && Tokens(s) && Slots(s) && PutsInOrder(s)
    ensures PutsInOrder(Apply(s, e))
  {
    match e
    case CaptureStep(g, outcome) =>
      assert InPut(s, g);
      if s.captures[g].pc == PuttingVideo {
        VideoPutInOrder(s, g);
      } else if s.captures[g].pc == PuttingInference {
        InferencePutInOrder(s, g);
      } else {
        CaptureFrame(s, g, outcome);
        PlainCaptureOrder(s, g, outcome);
      }
    case InferenceStep(g, outcome) =>
      InferenceFrame(s, g, outcome);
      InferenceHistories(s, g, outcome);
    case _ =>
      GuiFrame(s, e);
      PutsKeptByGui(s, Apply(s, e));
  }

  lemma {:induction false} PutsKeptByGui(s: State, next: State)
    requires Tokens(s) && PutsInOrder(s)
    requires next.video.put == s.video.put && next.inference.put == s.inference.put
    requires next.captures == s.captures ||
      (s.current !in s.captures && next.captures == s.captures[s.current := Capture(Opening, 0, 0, 0)])
    ensures PutsInOrder(next)
  {
  }

  lemma {:induction false} PlainCaptureOrder(s: State, g: nat, outcome: Outcome)
    requires Enabled(s, CaptureStep(g, outcome)) && PutsInOrder(s)
    requires s.captures[g].pc != PuttingVideo && s.captures[g].pc != PuttingInference
    ensures PutsInOrder(StepCapture(s, g, outcome))
  {
    var next := StepCapture(s, g, outcome);
    CaptureFrame(s, g, outcome);
    assert next.video.put == s.video.put && next.inference.put == s.inference.put;
    assert VideoLimit(s.captures[g]) <= VideoLimit(next.captures[g]);
    assert InferenceLimit(s.captures[g]) <= InferenceLimit(next.captures[g]);
  }

  lemma {:induction false} VideoPutInOrder(s: State, g: nat)
    requires g in s.captures && s.captures[g].pc == PuttingVideo && InPut(s, g) && PutsInOrder(s)
    requires !Slot.PhaseOf(s.video, g).Idle?
    ensures PutsInOrder(StepPutVideo(s, g))
  {
    var next := StepPutVideo(s, g);
    assert next.captures == s.captures[g := next.captures[g]] && next.captures[g].number == s.captures[g].number;
    assert next.video.put == s.video.put ||
      (next.video.put == s.video.put + [Frame(g, s.captures[g].number)] && next.captures[g].pc == PuttingInference);
    assert next.inference.put == s.inference.put;
  }

  lemma {:induction false} InferencePutInOrder(s: State, g: nat)
    requires g in s.captures && s.captures[g].pc == PuttingInference && InPut(s, g) && PutsInOrder(s)
    requires !Slot.PhaseOf(s.inference, g).Idle?
    ensures PutsInOrder(StepPutInference(s, g))
  {
    var next := StepPutInference(s, g);
    assert next.captures == s.captures[g := next.captures[g]] && next.captures[g].number == s.captures[g].number;
    assert next.inference.put == s.inference.put ||
      (next.inference.put == s.inference.put + [Frame(g, s.captures[g].number)] && next.captures[g].pc == Looping);
    assert next.video.put == s.video.put;
  }

  /** A list of frames with increasing places, each consumed from the queue at its place. */
  ghost predicate ConsumedInOrder(list: seq<Placed>, left: seq<Slot.Leaving<Frame>>) {
    && (forall k | 0 <= k < |list| ::
          list[k].place < |left| && left[list[k].place] == Slot.Leaving(list[k].frame, Slot.Consumed))
    && (forall k, l | 0 <= k < l < |list| :: list[k].place < list[l].place)
  }

  ghost predicate Consumption(s: State) {
    ConsumedInOrder(s.gui.shown, s.video.left) && ConsumedInOrder(s.taken, s.inference.left)
  }

  lemma {:induction false} LongerHistory(list: seq<Placed>, left: seq<Slot.Leaving<Frame>>,
        more: seq<Slot.Leaving<Frame>>)
    requires ConsumedInOrder(list, left) && left <= more
    ensures ConsumedInOrder(list, more)
  {
  }

  lemma {:induction false} ConsumptionKept(s: State, e: Event)
    requires Enabled(s, e) && Consumption(s)
    ensures Consumption(Apply(s, e))
  {
    var next := Apply(s, e);
    match e
    case CaptureStep(g, outcome) =>
      CaptureFrame(s, g, outcome);
      CaptureHistories(s, g, outcome);
      LongerHistory(s.gui.shown, s.video.left, next.video.left);
      LongerHistory(s.taken, s.inference.left, next.inference.left);
    case InferenceStep(g, outcome) =>
      InferenceFrame(s, g, outcome);
      InferenceConsumption(s, g, outcome);
    case _ =>
      GuiFrame(s, e);
      LongerHistory(s.taken, s.inference.left, next.inference.left);
      GuiConsumption(s, e);
  }

  lemma {:induction false} InferenceConsumption(s: State, g: nat, outcome: Outcome)
    requires Enabled(s, InferenceStep(g, outcome)) && ConsumedInOrder(s.taken, s.inference.left)
    ensures
      var next := StepInference(s, g, outcome);
      ConsumedInOrder(next.taken, next.inference.left)
  {
    var next := StepInference(s, g, outcome);
    InferenceHistories(s, g, outcome);
    LongerHistory(s.taken, s.inference.left, next.inference.left);
  }

  lemma {:induction false} GuiConsumption(s: State, e: Event)
    requires Enabled(s, e) && !e.CaptureStep? && !e.InferenceStep?
    requires ConsumedInOrder(s.gui.shown, s.video.left)
    ensures ConsumedInOrder(Apply(s, e).gui.shown, Apply(s, e).video.left)
  {
    LongerHistory(s.gui.shown, s.video.left, Apply(s, e).video.left);
  }

  // ---------------------------------------------------------------------
  // Results
  // ---------------------------------------------------------------------

  ghost predicate WorkerOrder(s: State, g: nat)
    requires g in s.inferences
  {
    var w := s.inferences[g];
    && w.result <= w.number
    && (w.pc == Working ==> w.result < w.number)
    && (w.number > 0 ==>
         w.place < |s.inference.left| && s.inference.left[w.place].item == Frame(g, w.number))
  }

  ghost predicate ResultsInOrder(s: State) {
    (forall g | g in s.inferences :: WorkerOrder(s, g)) && AnswersInOrder(s.posted, s.inferences)
  }

  ghost predicate ResultsPolled(s: State) {
    && s.polled <= |s.posted|
    && (forall k | 0 <= k < |s.gui.results| ::
          var f := s.gui.results[k];
          f.place < s.polled && s.posted[f.place] == VideoInference(f.frame.generation, f.frame.number))
    && (forall k, l | 0 <= k < l < |s.gui.results| :: s.gui.results[k].place < s.gui.results[l].place)
  }

  lemma {:induction false} TakenFrameIsNewer(s: State, g: nat)
    requires Slot.Conserved(s.inference) && PutsInOrder(s) && g in s.inferences && WorkerOrder(s, g)
    requires s.inference.content != [] && s.inference.content[0].generation == g
    ensures s.inferences[g].number < s.inference.content[0].number
  {
    var here := |s.inference.left|;
    assert s.inference.content[0] == s.inference.put[here];
    if s.inferences[g].number > 0 {
      var place := s.inferences[g].place;
      assert s.inference.left[place].item == s.inference.put[place];
    }
  }

  lemma {:induction false} ResultsKeptByInference(s: State, g: nat, outcome: Outcome)
    requires Enabled(s, InferenceStep(g, outcome)) && Slots(s) && PutsInOrder(s) && ResultsInOrder(s)
    ensures ResultsInOrder(StepInference(s, g, outcome))
  {
    var next, w := StepInference(s, g, outcome), s.inferences[g];
    InferenceFrame(s, g, outcome);
    InferenceHistories(s, g, outcome);
    assert WorkerOrder(s, g);
    if w.pc == Getting && s.inference.content != [] && s.inference.content[0].generation == g {
      TakenFrameIsNewer(s, g);
      NewFrameOrder(s, next, g);
    }
    WorkersKept(s, next, g);
    PostedKept(s.posted, next.posted, s.inferences, next.inferences, g);
  }

  lemma {:induction false} NewFrameOrder(s: State, next: State, g: nat)
    requires g in s.inferences && g in next.inferences && s.inference.content != []
    requires WorkerOrder(s, g) && s.inferences[g].number < s.inference.content[0].number
    requires s.inference.content[0].generation == g
    requires next.inferences[g].number == s.inference.content[0].number
    requires next.inferences[g].place == |s.inference.left| && next.inferences[g].result == s.inferences[g].result
    requires next.inference.left == s.inference.left + [Slot.Leaving(s.inference.content[0], Slot.Consumed)]
    ensures WorkerOrder(next, g)
  {
  }

  lemma {:induction false} WorkersKept(s: State, next: State, g: nat)
    requires g in s.inferences && g in next.inferences && next.inferences == s.inferences[g := next.inferences[g]]
    requires s.inference.left <= next.inference.left
    requires forall h | h in s.inferences :: WorkerOrder(s, h)
    requires WorkerOrder(next, g)
    ensures forall h | h in next.inferences :: WorkerOrder(next, h)
  {
    forall h | h in next.inferences && h != g ensures WorkerOrder(next, h) {
      assert WorkerOrder(s, h);
    }
  }

  /** Answers are posted with numbers above all earlier answers of the same worker. */
  ghost predicate AnswersInOrder(posted: seq<Notice>, workers: map<nat, Inference>) {
    && (forall i | 0 <= i < |posted| && posted[i].VideoInference? ::
          posted[i].generation in workers && posted[i].number <= workers[posted[i].generation].result)
    && (forall i, j | 0 <= i < j < |posted| && posted[i].VideoInference? && posted[j].VideoInference?
                      && posted[i].generation == posted[j].generation ::
          posted[i].number < posted[j].number)
  }

  lemma {:induction false} PostedKept(posted: seq<Notice>, nextPosted: seq<Notice>, workers: map<nat, Inference>,
                   nextWorkers: map<nat, Inference>, g: nat)
    requires AnswersInOrder(posted, workers) && g in workers && g in nextWorkers
    requires nextWorkers == workers[g := nextWorkers[g]]
    requires
      || (nextPosted == posted && nextWorkers[g].result == workers[g].result)
      || (nextPosted == posted + [VideoError(g)] && nextWorkers[g].result == workers[g].result)
      || (nextPosted == posted + [VideoInference(g, nextWorkers[g].result)]
          && workers[g].result < nextWorkers[g].result)
    ensures AnswersInOrder(nextPosted, nextWorkers)
  {
  }

  lemma {:induction false} ResultsKeptByCapture(s: State, g: nat, outcome: Outcome)
    requires Enabled(s, CaptureStep(g, outcome)) && ResultsInOrder(s)
    ensures ResultsInOrder(StepCapture(s, g, outcome))
  {
    var next := StepCapture(s, g, outcome);
    CaptureFrame(s, g, outcome);
    CaptureHistories(s, g, outcome);
    ResultsUntouched(s, next);
  }

  lemma {:induction false} ResultsUntouched(s: State, next: State)
    requires ResultsInOrder(s) && next.inferences == s.inferences && s.inference.left <= next.inference.left
    requires next.posted == s.posted || exists notice: Notice ::
      next.posted == s.posted + [notice] && !notice.VideoInference?
    ensures ResultsInOrder(next)
  {
    forall h | h in next.inferences ensures WorkerOrder(next, h) {
      assert WorkerOrder(s, h);
    }
  }

  lemma {:induction false} ResultsKeptByGui(s: State, e: Event)
    requires Enabled(s, e) && Tokens(s) && ResultsInOrder(s) && !e.CaptureStep? && !e.InferenceStep?
    ensures ResultsInOrder(Apply(s, e))
  {
    var next := Apply(s, e);
    GuiFrame(s, e);
    if next.inferences == s.inferences {
      ResultsUntouched(s, next);
    } else {
      forall h | h in next.inferences ensures WorkerOrder(next, h) {
        if h in s.inferences {
          assert WorkerOrder(s, h);
        }
      }
    }
  }

  lemma {:induction false} ResultsPolledKept(s: State, e: Event)
    requires Enabled(s, e) && ResultsPolled(s)
    ensures ResultsPolled(Apply(s, e))
  {
    match e
    case CaptureStep(g, outcome) =>
      CaptureFrame(s, g, outcome);
      CaptureHistories(s, g, outcome);
    case InferenceStep(g, outcome) =>
      InferenceFrame(s, g, outcome);
      InferenceHistories(s, g, outcome);
    case _ =>
      GuiResults(s, e);
  }

  lemma {:induction false} GuiResults(s: State, e: Event)
    requires Enabled(s, e) && ResultsPolled(s) && !e.CaptureStep? && !e.InferenceStep?
    ensures ResultsPolled(Apply(s, e))
  {
    if e == PollNotice {
      PolledResults(s);
    } else {
      var next := Apply(s, e);
      assert next.gui.results == s.gui.results && next.polled == s.polled && next.posted == s.posted by {
        GuiKeepsResults(s, e);
      }
    }
  }

  lemma {:induction false} GuiKeepsResults(s: State, e: Event)
    requires Enabled(s, e) && !e.CaptureStep? && !e.InferenceStep? && e != PollNotice
    ensures
      var next := Apply(s, e);
      next.gui.results == s.gui.results && next.polled == s.polled && next.posted == s.posted
  {
  }

  lemma {:induction false} PolledResults(s: State)
    requires Enabled(s, PollNotice) && ResultsPolled(s)
    ensures ResultsPolled(Apply(s, PollNotice))
  {
    var next := Apply(s, PollNotice);
    assert next.gui.results == s.gui.results
        || (s.posted[s.polled].VideoInference?
            && next.gui.results == s.gui.results
                 + [Placed(Frame(s.posted[s.polled].generation, s.posted[s.polled].number), s.polled)]);
  }
}
