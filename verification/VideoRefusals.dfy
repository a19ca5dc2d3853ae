/**
  When a capture worker's put is refused, as Python's `queue.Full`, and what that does to the video
  that is running.
 */
module VideoRefusals {
  import Slot = LatestSlot
  import opened VideoPipeline
  import opened VideoSafety
  import opened VideoTheorems

  datatype Queue = VideoFrames | InferenceFrames

  function QueueOf(s: State, q: Queue): Slot.State<Frame> {
    if q == VideoFrames then s.video else s.inference
  }

  /** The queue through a run. */
  function History(r: Run, q: Queue): seq<Slot.State<Frame>> {
    seq(|r.states|, k requires 0 <= k < |r.states| => QueueOf(r.states[k], q))
  }

  // ---------------------------------------------------------------------
  // One step, seen from one queue
  // ---------------------------------------------------------------------

  lemma {:induction false} SlotMove(slot: Slot.State<Frame>, g: nat)
    requires !Slot.PhaseOf(slot, g).Idle?
    ensures Slot.OneMove(slot, Slot.Apply(slot, Slot.Advance(g)))
  {
    Slot.PutCounts(slot, Slot.Advance(g));
  }

  lemma {:induction false} CaptureMoves(s: State, g: nat, outcome: Outcome, q: Queue)
    requires Enabled(s, CaptureStep(g, outcome))
    ensures Slot.OneMove(QueueOf(s, q), QueueOf(StepCapture(s, g, outcome), q))
  {
    if s.captures[g].pc == PuttingVideo {
      SlotMove(s.video, g);
    } else if s.captures[g].pc == PuttingInference {
      SlotMove(s.inference, g);
    }
  }

  lemma {:induction false} OthersMove(s: State, e: Event, q: Queue)
    requires Enabled(s, e) && !e.CaptureStep?
    ensures
      var a, b := QueueOf(s, q), QueueOf(Apply(s, e), q);
      Slot.OneMove(a, b) && a.put == b.put && a.producers == b.producers
  {
  }

  // ---------------------------------------------------------------------
  // Whole runs
  // ---------------------------------------------------------------------

  lemma {:induction false} HistoryIsTrace(r: Run, q: Queue)
    requires Legal(r)
    ensures Slot.Trace(History(r, q))
  {
    var states := History(r, q);
    forall k | 0 <= k < |states| ensures Slot.Conserved(states[k]) {
      FramesAreConserved(r, k);
    }
    forall k, l | 0 <= k < |states| && l == k + 1 < |states| ensures Slot.OneMove(states[k], states[l]) {
      StepMoves(r, k, q);
    }
  }

  lemma {:induction false} StepMoves(r: Run, k: nat, q: Queue)
    requires Legal(r) && k < |r.events|
    ensures Slot.OneMove(QueueOf(r.states[k], q), QueueOf(r.states[k + 1], q))
    ensures !r.events[k].CaptureStep? ==> QueueOf(r.states[k + 1], q).put == QueueOf(r.states[k], q).put
  {
    var s, e := r.states[k], r.events[k];
    assert Enabled(s, e) && r.states[k + 1] == Apply(s, e) by {
      StepOf(r, k);
    }
    match e
    case CaptureStep(g, outcome) => CaptureMoves(s, g, outcome, q);
    case _ => OthersMove(s, e, q);
  }

  lemma {:induction false} PutWaits(r: Run, g: nat, q: Queue, i: nat, j: nat)
    requires Legal(r) && i <= j <= |r.events|
    requires forall k | i <= k < j && r.events[k].CaptureStep? :: r.events[k].g != g
    ensures Slot.PhaseOf(QueueOf(r.states[j], q), g) == Slot.PhaseOf(QueueOf(r.states[i], q), g)
    decreases j - i
  {
    if i < j {
      PutWaits(r, g, q, i, j - 1);
      var s, e := r.states[j - 1], r.events[j - 1];
      assert Enabled(s, e) && r.states[j] == Apply(s, e) by {
        StepOf(r, j - 1);
      }
      match e
      case CaptureStep(h, outcome) => CaptureLeavesOthers(s, h, outcome, g);
      case _ => OthersMove(s, e, q);
    }
  }

  /** A step of a worker inside a put is a step of that put. */
  lemma {:induction false} StepOfPut(s: State, g: nat, outcome: Outcome, q: Queue)
    requires Enabled(s, CaptureStep(g, outcome)) && InPut(s, g)
    requires !Slot.PhaseOf(QueueOf(s, q), g).Idle?
    ensures QueueOf(StepCapture(s, g, outcome), q) == Slot.Apply(QueueOf(s, q), Slot.Advance(g))
  {
  }

  lemma {:induction false} PutStepAt(r: Run, i: nat, g: nat, q: Queue)
    requires Legal(r) && i < |r.events| && r.events[i].CaptureStep? && r.events[i].g == g
    requires !Slot.PhaseOf(QueueOf(r.states[i], q), g).Idle?
    ensures QueueOf(r.states[i + 1], q) == Slot.Apply(QueueOf(r.states[i], q), Slot.Advance(g))
  {
    assert Enabled(r.states[i], r.events[i]) && r.states[i + 1] == Apply(r.states[i], r.events[i]) by {
      StepOf(r, i);
    }
    assert InPut(r.states[i], g) by {
      RunKeepsInv(r, i);
    }
    StepOfPut(r.states[i], g, r.events[i].outcome, q);
  }

  /** Another capture worker puts a frame in the queue at step `k`, and at `j` nothing has left the queue since. */
  ghost predicate OvertakenAt(r: Run, g: nat, q: Queue, k: nat, j: nat)
    requires Legal(r) && k < j <= |r.events|
  {
    && r.events[k].CaptureStep? && r.events[k].g != g
    && |QueueOf(r.states[k + 1], q).put| == |QueueOf(r.states[k], q).put| + 1
    && |QueueOf(r.states[j], q).left| == |QueueOf(r.states[k + 1], q).left|
  }

  /**
    In every run of the client, a capture worker that has made room is refused all the same if and only if
    another capture worker has put a frame in the same queue since, and nothing has left the queue after that.
   */
  lemma {:induction false} WorkerIsRefusedExactlyWhenOvertaken(r: Run, g: nat, q: Queue, i: nat, j: nat)
    requires Legal(r) && i < j < |r.events|
    requires r.events[i].CaptureStep? && r.events[i].g == g && Slot.PhaseOf(QueueOf(r.states[i], q), g).MakeRoom?
    requires r.events[j].CaptureStep? && r.events[j].g == g
    requires forall k | i < k < j && r.events[k].CaptureStep? :: r.events[k].g != g
    ensures Slot.PhaseOf(QueueOf(r.states[j], q), g).SecondPut?
    ensures Slot.PhaseOf(QueueOf(r.states[j + 1], q), g).Raised? <==>
      exists k: nat | i < k < j :: OvertakenAt(r, g, q, k, j)
  {
    var states := History(r, q);
    assert Slot.PhaseOf(states[i + 1], g).SecondPut? && states[i + 1].content == [] by {
      PutStepAt(r, i, g, q);
      FramesAreConserved(r, i);
    }
    assert Slot.PhaseOf(states[j], g).SecondPut? by {
      PutWaits(r, g, q, i + 1, j);
    }
    assert Slot.PhaseOf(states[j + 1], g).Raised? <==> states[j].content != [] by {
      PutStepAt(r, j, g, q);
    }
    HistoryIsTrace(r, q);
    Slot.FullExactlyWhenPutAndKept(states, i + 1, j);
    forall k: nat | i < k < j ensures Slot.PutAndKept(states, k, j) <==> OvertakenAt(r, g, q, k, j) {
      StepMoves(r, k, q);
    }
  }

  // ---------------------------------------------------------------------
  // A stale worker ends the new video
  // ---------------------------------------------------------------------

  /** The first video's worker is about to put its first frame. */
  lemma {:induction false} FirstWorkerBeginsPut() returns (r: Run)
    ensures Legal(r)
    ensures
      Last(r) == INITIAL.(
        gui := Gui(1, true, [], [], []), current := 1,
        captures := map[1 := Capture(PuttingVideo, 1, 0, 0)],
        inferences := map[1 := Inference(Top, 0, 0, 0)],
        video := Slot.State([], map[1 := Slot.FirstPut(Frame(1, 1))], [], []))
  {
    r := LaunchFirst();
    r := Extend(r, CaptureStep(1, Good));
    r := Extend(r, CaptureStep(1, Good));
    r := Extend(r, CaptureStep(1, Good));
  }

  /** Just then the video is stopped, and the next one is launched. */
  lemma {:induction false} StaleWorkerWaits() returns (r: Run)
    ensures Legal(r)
    ensures
      var s := Last(r);
      && s.gui == Gui(3, true, [], [], []) && s.guiPc == Ready && s.stopped == {1} && s.posted == [] && s.polled == 0
      && s.captures == map[1 := Capture(PuttingVideo, 1, 0, 0), 3 := Capture(Opening, 0, 0, 0)]
      && s.video == Slot.State([], map[1 := Slot.FirstPut(Frame(1, 1))], [], [])
      && s.inference == EMPTY_SLOT
  {
    r := FirstWorkerBeginsPut();
    r := Extend(r, Stop);
    r := Extend(r, Start);
    r := Extend(r, GuiStep);
    r := Extend(r, GuiStep);
    r := Extend(r, GuiStep);
  }

  /** The new video's worker starts on its first frame. */
  lemma {:induction false} NewWorkerReadsFirst() returns (r: Run)
    ensures Legal(r)
    ensures
      var s := Last(r);
      && s.gui == Gui(3, true, [], [], []) && s.guiPc == Ready && s.stopped == {1} && s.posted == [] && s.polled == 0
      && s.captures == map[1 := Capture(PuttingVideo, 1, 0, 0), 3 := Capture(Reading, 0, 0, 0)]
      && s.video == Slot.State([], map[1 := Slot.FirstPut(Frame(1, 1))], [], [])
      && s.inference == EMPTY_SLOT
  {
    r := StaleWorkerWaits();
    r := Extend(r, CaptureStep(3, Good));
    r := Extend(r, CaptureStep(3, Good));
  }

  /** It puts the frame in the display queue. */
  lemma {:induction false} NewWorkerPutsFirst() returns (r: Run)
    ensures Legal(r)
    ensures
      var s := Last(r);
      && s.gui == Gui(3, true, [], [], []) && s.guiPc == Ready && s.stopped == {1} && s.posted == [] && s.polled == 0
      && s.captures == map[1 := Capture(PuttingVideo, 1, 0, 0), 3 := Capture(PuttingInference, 1, 0, 0)]
      && s.video.content == [Frame(3, 1)]
      && s.video.producers == map[1 := Slot.FirstPut(Frame(1, 1)), 3 := Slot.Idle]
      && s.inference.content == [] && s.inference.producers == map[3 := Slot.FirstPut(Frame(3, 1))]
  {
    r := NewWorkerReadsFirst();
    r := Extend(r, CaptureStep(3, Good));
    r := Extend(r, CaptureStep(3, Good));
  }

  /** It puts the frame in the other queue as well and reads the next one. */
  lemma {:induction false} NewWorkerReadsNext() returns (r: Run)
    ensures Legal(r)
    ensures
      var s := Last(r);
      && s.gui == Gui(3, true, [], [], []) && s.guiPc == Ready && s.stopped == {1} && s.posted == [] && s.polled == 0
      && s.captures == map[1 := Capture(PuttingVideo, 1, 0, 0), 3 := Capture(Reading, 1, 0, 0)]
      && s.video.content == [Frame(3, 1)]
      && s.video.producers == map[1 := Slot.FirstPut(Frame(1, 1)), 3 := Slot.Idle]
      && s.inference.producers == map[3 := Slot.Idle]
  {
    r := NewWorkerPutsFirst();
    r := Extend(r, CaptureStep(3, Good));
    r := Extend(r, CaptureStep(3, Good));
  }

  /** Its put of that frame finds the queue full. */
  lemma {:induction false} NewWorkerMakesRoom() returns (r: Run)
    ensures Legal(r)
    ensures
      var s := Last(r);
      && s.gui == Gui(3, true, [], [], []) && s.guiPc == Ready && s.stopped == {1} && s.posted == [] && s.polled == 0
      && s.captures == map[1 := Capture(PuttingVideo, 1, 0, 0), 3 := Capture(PuttingVideo, 2, 0, 0)]
      && s.video.content == [Frame(3, 1)]
      && s.video.producers == map[1 := Slot.FirstPut(Frame(1, 1)), 3 := Slot.MakeRoom(Frame(3, 2))]
  {
    r := NewWorkerReadsNext();
    r := Extend(r, CaptureStep(3, Good));
    r := Extend(r, CaptureStep(3, Good));
  }

  /** It makes room, and the stale worker takes the room. */
  lemma {:induction false} StaleWorkerTakesTheRoom() returns (r: Run)
    ensures Legal(r)
    ensures
      var s := Last(r);
      && s.gui == Gui(3, true, [], [], []) && s.guiPc == Ready && s.stopped == {1} && s.posted == [] && s.polled == 0
      && 3 in s.captures && s.captures[3] == Capture(PuttingVideo, 2, 0, 0)
      && s.video.content == [Frame(1, 1)] && Slot.PhaseOf(s.video, 3).SecondPut?
  {
    r := NewWorkerMakesRoom();
    r := Extend(r, CaptureStep(3, Good));
    r := Extend(r, CaptureStep(1, Good));
  }

  /** The new worker's second try is refused. */
  lemma {:induction false} NewWorkerIsRefused() returns (r: Run)
    ensures Legal(r) && Slot.PhaseOf(Last(r).video, 3).Raised?
    ensures
      var s := Last(r);
      && s.gui == Gui(3, true, [], [], []) && s.guiPc == Ready && s.stopped == {1} && s.posted == [] && s.polled == 0
      && 3 in s.captures && s.captures[3] == Capture(PuttingVideo, 2, 0, 0)
  {
    r := StaleWorkerTakesTheRoom();
    r := Extend(r, CaptureStep(3, Good));
  }

  /** It reports the exception as an error of its video, and the GUI ends the video that was running well. */
  lemma {:induction false} StaleWorkerEndsTheNewVideo() returns (r: Run, refused: nat)
    ensures Legal(r) && refused < |r.events|
    ensures Slot.PhaseOf(r.states[refused].video, 3).Raised?
    ensures
      var s := r.states[|r.events| - 1];
      && s.gui.running && s.gui.generation == 3 && s.stopped == {1}
      && !Last(r).gui.running && Last(r).gui.notices == [VideoError(3)]
  {
    r := NewWorkerIsRefused();
    refused := |r.events|;
    r := Extend(r, CaptureStep(3, Good));
    r := Extend(r, CaptureStep(3, Good));
    r := Extend(r, CaptureStep(3, Good));
    r := Extend(r, PollNotice);
  }
}
