/**
  The video part of the desktop client: a GUI thread, and for every started video one capture
  worker and one inference worker that are never joined, so those of earlier videos may
  still run. They share two latest-item queues, an event queue and one stop flag a video.
  Generation numbers tag everything the workers hand over.
 */
module VideoPipeline {
  import Slot = LatestSlot

  datatype Frame = Frame(generation: nat, number: nat)

  /** What workers post to the GUI. */
  datatype Notice =
    | VideoEnd(generation: nat)
    | VideoError(generation: nat)
    | VideoInference(generation: nat, number: nat)

  datatype CapturePc =
    | Opening
    | Looping            // test the stop flag
    | Reading            // read a frame and wait for its time
    | PuttingVideo       // inside the put to the display queue
    | PuttingInference   // inside the put to the inference queue
    | EndCheck | EndPost | EndSet
    | ErrorCheck | ErrorPost | ErrorSet
    | CaptureDone

  /** `number` is the last frame read; the two counters say how many puts came after the stop flag was set. */
  datatype Capture = Capture(pc: CapturePc, number: nat, lateVideo: nat, lateInference: nat)

  datatype InferencePc =
    | Top                // test the stop flag
    | Getting            // wait for a frame
    | Working            // encode, send, wait for the response
    | FailCheck | FailPost
    | InferenceDone

  /** `number` is the last frame taken of the own video and `place` its place; `result` is the last one answered. */
  datatype Inference = Inference(pc: InferencePc, number: nat, place: nat, result: nat)

  /** A frame together with its place in the history of the queue it came from. */
  datatype Placed = Placed(frame: Frame, place: nat)

  datatype GuiPc = Ready | ClearingVideo | ClearingInference | Launching

  /** What only the GUI thread touches: the token, the flag, and what it has accepted so far. */
  datatype Gui = Gui(generation: nat, running: bool, shown: seq<Placed>, results: seq<Placed>, notices: seq<Notice>)

  datatype State = State(
    gui: Gui,
    guiPc: GuiPc,
    current: nat,                          // the generation whose stop flag the GUI holds
    stopped: set<nat>,                     // generations whose stop flag is set
    video: Slot.State<Frame>,
    inference: Slot.State<Frame>,
    posted: seq<Notice>,                   // every notice ever posted, in order
    polled: nat,                           // how many of them the GUI has taken from the event queue
    captures: map<nat, Capture>,
    inferences: map<nat, Inference>,
    taken: seq<Placed>)                    // frames inference workers took for their own video

  datatype Event =
    | Start                                // choose a source: stop the old video, start a new one
    | Stop                                 // the stop button, or any action that stops the video
    | GuiStep                              // the GUI goes on clearing the queues and launching workers
    | PollFrame
    | PollNotice
    | CaptureStep(g: nat, outcome: Outcome)
    | InferenceStep(g: nat, outcome: Outcome)

  /** How the outside world answers a worker: a frame or a response, the end of the source, an exception. */
  datatype Outcome = Good | Finished | Broken

  // ---------------------------------------------------------------------
  // The GUI's handlers
  // ---------------------------------------------------------------------

  function Halted(gui: Gui): Gui {
    gui.(generation := gui.generation + 1, running := false)
  }

  function HandleFrame(gui: Gui, frame: Frame, place: nat): Gui {
    if frame.generation != gui.generation || !gui.running then gui
    else gui.(shown := gui.shown + [Placed(frame, place)])
  }

  function HandleNotice(gui: Gui, notice: Notice, place: nat): Gui {
    match notice
    case VideoEnd(g) =>
      if g != gui.generation then gui else gui.(running := false, notices := gui.notices + [notice])
    case VideoError(g) =>
      if g != gui.generation then gui else gui.(running := false, notices := gui.notices + [notice])
    case VideoInference(g, number) =>
      if g != gui.generation || !gui.running then gui
      else gui.(results := gui.results + [Placed(Frame(g, number), place)])
  }

  // ---------------------------------------------------------------------
  // Steps
  // ---------------------------------------------------------------------

  predicate Enabled(s: State, e: Event) {
    match e
    case Start => s.guiPc == Ready
    case Stop => s.guiPc == Ready
    case GuiStep => s.guiPc != Ready
    case PollFrame => s.guiPc == Ready && s.video.content != []
    case PollNotice => s.guiPc == Ready && s.polled < |s.posted|
    case CaptureStep(g, outcome) =>
      && g in s.captures && s.captures[g].pc != CaptureDone
      && (s.captures[g].pc == PuttingVideo ==> !Slot.PhaseOf(s.video, g).Idle?)
      && (s.captures[g].pc == PuttingInference ==> !Slot.PhaseOf(s.inference, g).Idle?)
      && (s.captures[g].pc == Reading && outcome == Good ==>
           Slot.PhaseOf(s.video, g).Idle? && Slot.PhaseOf(s.inference, g).Idle?)
    case InferenceStep(g, _) => g in s.inferences && s.inferences[g].pc != InferenceDone
  }

  function StopVideo(s: State): State {
    if !s.gui.running then s
    else s.(stopped := s.stopped + {s.current}, gui := Halted(s.gui))
  }

  function StartVideo(s: State): State {
    var t := StopVideo(s);
    var g := t.gui.generation + 1;
    t.(gui := t.gui.(generation := g, running := true), current := g, guiPc := ClearingVideo)
  }

  function StepGui(s: State): State {
    match s.guiPc
    case Ready => s
    case ClearingVideo =>
      if s.video.content == [] then s.(guiPc := ClearingInference)
      else s.(video := Slot.Remove(s.video, Slot.Cleared))
    case ClearingInference =>
      if s.inference.content == [] then s.(guiPc := Launching)
      else s.(inference := Slot.Remove(s.inference, Slot.Cleared))
    case Launching =>
      s.(guiPc := Ready,
         captures := s.captures[s.current := Capture(Opening, 0, 0, 0)],
         inferences := s.inferences[s.current := Inference(Top, 0, 0, 0)])
  }

  function SetCapture(s: State, g: nat, c: Capture): State {
    s.(captures := s.captures[g := c])
  }

  function StepCapture(s: State, g: nat, outcome: Outcome): State
    requires Enabled(s, CaptureStep(g, outcome))
  {
    var c := s.captures[g];
    match c.pc
    case Opening => SetCapture(s, g, c.(pc := if outcome == Good then Looping else ErrorCheck))
    case Looping => SetCapture(s, g, c.(pc := if g in s.stopped then EndCheck else Reading))
    case Reading =>
      if outcome == Good then
        var frame := Frame(g, c.number + 1);
        SetCapture(s, g, c.(pc := PuttingVideo, number := c.number + 1))
          .(video := Slot.Apply(s.video, Slot.Begin(g, frame)))
      else SetCapture(s, g, c.(pc := if outcome == Finished then EndCheck else ErrorCheck))
    case PuttingVideo => StepPutVideo(s, g)
    case PuttingInference => StepPutInference(s, g)
    case EndCheck => SetCapture(s, g, c.(pc := if g in s.stopped then CaptureDone else EndPost))
    case EndPost => SetCapture(s, g, c.(pc := EndSet)).(posted := s.posted + [VideoEnd(g)])
    case EndSet => SetCapture(s, g, c.(pc := CaptureDone)).(stopped := s.stopped + {g})
    case ErrorCheck => SetCapture(s, g, c.(pc := if g in s.stopped then CaptureDone else ErrorPost))
    case ErrorPost => SetCapture(s, g, c.(pc := ErrorSet)).(posted := s.posted + [VideoError(g)])
    case ErrorSet => SetCapture(s, g, c.(pc := CaptureDone)).(stopped := s.stopped + {g})
    case CaptureDone => s
  }

  /** One step of the put to the display queue; when it is through, the other put begins. */
  function StepPutVideo(s: State, g: nat): State
    requires g in s.captures && !Slot.PhaseOf(s.video, g).Idle?
  {
    var c := s.captures[g];
    var before := Slot.PhaseOf(s.video, g);
    var video := Slot.Apply(s.video, Slot.Advance(g));
    if before.Raised? then SetCapture(s, g, c.(pc := ErrorCheck)).(video := video)
    else if Slot.PhaseOf(video, g).Idle? then
      var late := if g in s.stopped then c.lateVideo + 1 else c.lateVideo;
      var begun := s.inference.(producers := s.inference.producers[g := Slot.FirstPut(Frame(g, c.number))]);
      SetCapture(s, g, c.(pc := PuttingInference, lateVideo := late)).(video := video, inference := begun)
    else s.(video := video)
  }

  function StepPutInference(s: State, g: nat): State
    requires g in s.captures && !Slot.PhaseOf(s.inference, g).Idle?
  {
    var c := s.captures[g];
    var before := Slot.PhaseOf(s.inference, g);
    var inference := Slot.Apply(s.inference, Slot.Advance(g));
    if before.Raised? then SetCapture(s, g, c.(pc := ErrorCheck)).(inference := inference)
    else if Slot.PhaseOf(inference, g).Idle? then
      var late := if g in s.stopped then c.lateInference + 1 else c.lateInference;
      SetCapture(s, g, c.(pc := Looping, lateInference := late)).(inference := inference)
    else s.(inference := inference)
  }

  function SetInference(s: State, g: nat, w: Inference): State {
    s.(inferences := s.inferences[g := w])
  }

  function StepInference(s: State, g: nat, outcome: Outcome): State
    requires Enabled(s, InferenceStep(g, outcome))
  {
    var w := s.inferences[g];
    match w.pc
    case Top => SetInference(s, g, w.(pc := if g in s.stopped then InferenceDone else Getting))
    case Getting =>
      if s.inference.content == [] then SetInference(s, g, w.(pc := Top))
      else
        var frame := s.inference.content[0];
        var taken := s.(inference := Slot.Remove(s.inference, Slot.Consumed));
        if frame.generation != g then SetInference(taken, g, w.(pc := Top))
        else
          var place := |s.inference.left|;
          SetInference(taken, g, w.(pc := Working, number := frame.number, place := place))
            .(taken := s.taken + [Placed(frame, place)])
    case Working =>
      match outcome {
        case Good =>
          SetInference(s, g, w.(pc := Top, result := w.number)).(posted := s.posted + [VideoInference(g, w.number)])
        case Finished => SetInference(s, g, w.(pc := Top))
        case Broken => SetInference(s, g, w.(pc := FailCheck))
      }
    case FailCheck => SetInference(s, g, w.(pc := if g in s.stopped then InferenceDone else FailPost))
    case FailPost => SetInference(s, g, w.(pc := InferenceDone)).(posted := s.posted + [VideoError(g)])
    case InferenceDone => s
  }

  function Apply(s: State, e: Event): State
    requires Enabled(s, e)
  {
    match e
    case Start => StartVideo(s)
    case Stop => StopVideo(s)
    case GuiStep => StepGui(s)
    case PollFrame =>
      s.(video := Slot.Remove(s.video, Slot.Consumed),
         gui := HandleFrame(s.gui, s.video.content[0], |s.video.left|))
    case PollNotice =>
      s.(polled := s.polled + 1, gui := HandleNotice(s.gui, s.posted[s.polled], s.polled))
    case CaptureStep(g, outcome) => StepCapture(s, g, outcome)
    case InferenceStep(g, outcome) => StepInference(s, g, outcome)
  }

  // ---------------------------------------------------------------------
  // Runs
  // ---------------------------------------------------------------------

  const EMPTY_SLOT: Slot.State<Frame> := Slot.State([], map[], [], [])

  const INITIAL: State :=
    State(Gui(0, false, [], [], []), Ready, 0, {}, EMPTY_SLOT, EMPTY_SLOT, [], 0, map[], map[], [])

  datatype Run = Run(events: seq<Event>, states: seq<State>)

  ghost predicate StepHolds(r: Run, i: nat)
    requires |r.states| == |r.events| + 1 && i < |r.events|
  {
    Enabled(r.states[i], r.events[i]) && r.states[i + 1] == Apply(r.states[i], r.events[i])
  }

  /** A run of the client from its start, with any interleaving of any number of workers. */
  ghost predicate Legal(r: Run) {
    && |r.states| == |r.events| + 1
    && r.states[0] == INITIAL
    && forall i: nat | i < |r.events| :: StepHolds(r, i)
  }

  lemma {:induction false} StepOf(r: Run, i: nat)
    requires Legal(r) && i < |r.events|
    ensures Enabled(r.states[i], r.events[i]) && r.states[i + 1] == Apply(r.states[i], r.events[i])
  {
    assert StepHolds(r, i);
  }
}
