/**
  Any number of requests on one NPU. Each request runs in its own thread: it decodes
  alone, counts itself into the queue, takes the mutex, and only then writes the shared
  input memory, runs the NPU and reads the shared output memory. One event of the step
  system is one atomic action of one thread, or the passing of time.
 */
module Npu {
  import opened Detections
  import opened MachineInts

  datatype Image = Image(cols: nat, rows: nat, pixels: seq<nat>) {
    predicate Empty() {
      cols == 0 || rows == 0
    }
  }

  datatype Request = Request(encoded: seq<nat>, options: Options)

  /** The deterministic functions the engine calls, and the size of the shared input memory. */
  datatype Device = Device(
    decode: seq<nat> -> Image,
    resize: Image -> seq<nat>,
    run: seq<nat> -> seq<nat>,
    post: (seq<nat>, real, real) -> seq<Raw>,
    inputSize: nat,
    modelWidth: nat,
    modelHeight: nat,
    defaultScore: real,
    defaultNms: real)
  {
    ghost predicate Ok() {
      && modelWidth > 0 && modelHeight > 0
      && forall image :: |resize(image)| == inputSize
    }

    function FrameOf(image: Image): Frame {
      Frame(image.cols, image.rows, modelWidth, modelHeight)
    }

    /** The results for what the output memory holds, with the server's thresholds where none are given. */
    function Results(output: seq<nat>, options: Options): seq<Raw> {
      post(output, if options.score > 0.0 then options.score else defaultScore,
           if options.nms > 0.0 then options.nms else defaultNms)
    }
  }

  datatype Memory = Memory(input: seq<nat>, output: seq<nat>)

  /** The NPU may fail, leaving anything in its output memory, and so may the post-processing. */
  datatype Fault = NoFault | RunFault(garbage: seq<nat>) | PostFault

  datatype Timing = Timing(decodeUs: nat, queueUs: nat, inferenceUs: nat, totalUs: nat)

  datatype Outcome = Detected(cols: nat, rows: nat, detections: seq<Detection>) | Broken

  /** What the engine returns: codes -1, -2, -3 and 0. */
  datatype Reply =
    | Pending
    | BadArguments
    | Undecodable
    | Failed
    | Done(outcome: Outcome, timing: Timing)

  // ---------------------------------------------------------------------
  // The sequential engine: one request after the other on the same memory
  // ---------------------------------------------------------------------

  /** A turn on the NPU: who took it, for which request, how the NPU behaved, and when it ran. */
  datatype Ticket = Ticket(thread: nat, request: Request, fault: Fault, start: nat, end: nat)

  function Serve(dev: Device, memory: Memory, ticket: Ticket): (Outcome, Memory)
    requires dev.modelWidth > 0 && dev.modelHeight > 0
  {
    var image := dev.decode(ticket.request.encoded);
    var input := dev.resize(image);
    match ticket.fault
    case RunFault(garbage) => (Broken, Memory(input, garbage))
    case PostFault => (Broken, Memory(input, dev.run(input)))
    case NoFault =>
      var output := dev.run(input);
      ( Detected(image.cols, image.rows,
                 Report(dev.Results(output, ticket.request.options), ticket.request.options.maxDetections,
                        dev.FrameOf(image))),
        Memory(input, output) )
  }

  /**
    What a client is promised, in plain words: the sizes of its own image, and the detections of the
    post-processing of what the network makes of that image, with its own thresholds, the score's first,
    and the server's where it gives none.
   */
  ghost predicate IsOwnResult(dev: Device, request: Request, outcome: Outcome) {
    var image, options := dev.decode(request.encoded), request.options;
    var raws := dev.post(dev.run(dev.resize(image)),
                         if options.score > 0.0 then options.score else dev.defaultScore,
                         if options.nms > 0.0 then options.nms else dev.defaultNms);
    && outcome.Detected? && outcome.cols == image.cols && outcome.rows == image.rows
    && ListsFirst(outcome.detections, raws, options.maxDetections,
                  Frame(image.cols, image.rows, dev.modelWidth, dev.modelHeight))
  }

  /** An undisturbed turn gives the request its own result. */
  lemma {:induction false} UndisturbedTurn(dev: Device, memory: Memory, ticket: Ticket)
    requires dev.Ok() && ticket.fault == NoFault
    ensures IsOwnResult(dev, ticket.request, Serve(dev, memory, ticket).0)
  {
    var image := dev.decode(ticket.request.encoded);
    ReportListsFirst(dev.Results(dev.run(dev.resize(image)), ticket.request.options),
                     ticket.request.options.maxDetections, dev.FrameOf(image));
  }

  /** The memory after the first `n` turns, taken one after the other. */
  function MemoryAfter(dev: Device, start: Memory, tickets: seq<Ticket>, n: nat): Memory
    requires dev.modelWidth > 0 && dev.modelHeight > 0 && n <= |tickets|
  {
    if n == 0 then start else Serve(dev, MemoryAfter(dev, start, tickets, n - 1), tickets[n - 1]).1
  }

  /** What turn `n` returns in that sequence. */
  function OutcomeOf(dev: Device, start: Memory, tickets: seq<Ticket>, n: nat): Outcome
    requires dev.modelWidth > 0 && dev.modelHeight > 0 && n < |tickets|
  {
    Serve(dev, MemoryAfter(dev, start, tickets, n), tickets[n]).0
  }

  // ---------------------------------------------------------------------
  // The concurrent engine
  // ---------------------------------------------------------------------

  /** The next action of a thread. */
  datatype Pc =
    | Entering                    // check arguments, read total_start
    | Decoding                    // decode, read decode_end
    | Adding                      // waiting.fetch_add(1)
    | Queueing                    // read queue_start
    | Locking                     // take the mutex
    | Dequeueing                  // read queue_end
    | Subtracting                 // waiting.fetch_sub(1)
    | Resizing(written: nat)      // write the input memory, cell by cell
    | Starting                    // read inference_start
    | Running                     // rknn_run
    | Reading(got: seq<nat>)      // post_process reads the output memory, cell by cell
    | Ending(ok: bool)            // read inference_end
    | Copying                     // scale and copy the detections
    | Totalling                   // read total_end
    | Releasing                   // release the mutex
    | Returned

  datatype Stamps = Stamps(totalStart: nat, decodeEnd: nat, queueStart: nat, queueEnd: nat,
                           inferenceStart: nat, inferenceEnd: nat, totalEnd: nat)

  datatype Thread = Thread(request: Request, pc: Pc, image: Image, raws: seq<Raw>, report: seq<Detection>,
                           stamps: Stamps, reply: Reply, turn: nat)

  /** Shared variables, threads, the clock in nanoseconds, and the history of turns. */
  datatype State = State(now: nat, waiting: nat, holder: Holder, memory: Memory,
                         threads: map<nat, Thread>, tickets: seq<Ticket>)

  datatype Holder = Free | HeldBy(thread: nat)

  datatype Event =
    | Arrive(thread: nat, request: Request)
    | Tick(nanos: nat)
    | Act(thread: nat, fault: Fault)

  function ElapsedUs(start: nat, end: nat): nat {
    if end < start then 0 else (end - start) / 1000
  }

  const NO_STAMPS := Stamps(0, 0, 0, 0, 0, 0, 0)

  function NewThread(request: Request): Thread {
    Thread(request, Entering, Image(0, 0, []), [], [], NO_STAMPS, Pending, 0)
  }

  predicate Enabled(s: State, e: Event) {
    match e
    case Arrive(t, _) => t !in s.threads
    case Tick(_) => true
    case Act(t, _) =>
      && t in s.threads
      && s.threads[t].pc != Returned
      && (s.threads[t].pc == Locking ==> s.holder == Free)
  }

  function Put(s: State, t: nat, th: Thread): State {
    s.(threads := s.threads[t := th])
  }

  /** Actions before the mutex is held. */
  function ActAlone(dev: Device, s: State, t: nat): State
    requires t in s.threads
  {
    var th := s.threads[t];
    match th.pc
    case Entering =>
      if th.request.encoded == [] then Put(s, t, th.(pc := Returned, reply := BadArguments))
      else Put(s, t, th.(pc := Decoding, stamps := th.stamps.(totalStart := s.now)))
    case Decoding =>
      var image := dev.decode(th.request.encoded);
      var next := th.(image := image, stamps := th.stamps.(decodeEnd := s.now));
      if image.Empty() then Put(s, t, next.(pc := Returned, reply := Undecodable))
      else Put(s, t, next.(pc := Adding))
    case Adding =>
      Put(s, t, th.(pc := Queueing)).(waiting := (s.waiting + 1) % UINT32)
    case Queueing =>
      Put(s, t, th.(pc := Locking, stamps := th.stamps.(queueStart := s.now)))
    case Locking =>
      Put(s, t, th.(pc := Dequeueing, turn := |s.tickets|))
        .(holder := HeldBy(t), tickets := s.tickets + [Ticket(t, th.request, NoFault, s.now, s.now)])
    case _ => s
  }

  /** Actions of the thread that holds the mutex; the last ticket is its own. */
  function ActHolding(dev: Device, s: State, t: nat, fault: Fault): State
    requires dev.modelWidth > 0 && dev.modelHeight > 0
    requires t in s.threads
  {
    var th := s.threads[t];
    match th.pc
    case Dequeueing =>
      Put(s, t, th.(pc := Subtracting, stamps := th.stamps.(queueEnd := s.now)))
    case Subtracting =>
      Put(s, t, th.(pc := Resizing(0))).(waiting := (s.waiting - 1) % UINT32)
    case Resizing(k) =>
      var target := dev.resize(th.image);
      if k < |s.memory.input| && k < |target| then
        Put(s, t, th.(pc := Resizing(k + 1))).(memory := s.memory.(input := s.memory.input[k := target[k]]))
      else Put(s, t, th.(pc := Starting))
    case Starting =>
      Put(s, t, th.(pc := Running, stamps := th.stamps.(inferenceStart := s.now)))
        .(tickets := StampLast(s.tickets, s.now, s.now))
    case Running =>
      if fault.RunFault? then
        Put(s, t, th.(pc := Ending(false)))
          .(memory := s.memory.(output := fault.garbage), tickets := FaultLast(s.tickets, fault))
      else Put(s, t, th.(pc := Reading([]))).(memory := s.memory.(output := dev.run(s.memory.input)))
    case Reading(got) =>
      if |got| < |s.memory.output| then Put(s, t, th.(pc := Reading(got + [s.memory.output[|got|]])))
      else if fault == PostFault then
        Put(s, t, th.(pc := Ending(false))).(tickets := FaultLast(s.tickets, fault))
      else Put(s, t, th.(pc := Ending(true), raws := dev.Results(got, th.request.options)))
    case Ending(ok) =>
      Put(s, t, th.(pc := if ok then Copying else Releasing,
                    reply := if ok then Pending else Failed,
                    stamps := th.stamps.(inferenceEnd := s.now)))
        .(tickets := StampLast(s.tickets, th.stamps.inferenceStart, s.now))
    case Copying =>
      Put(s, t, th.(pc := Totalling,
                    report := Report(th.raws, th.request.options.maxDetections, dev.FrameOf(th.image))))
    case Totalling =>
      var stamps := th.stamps.(totalEnd := s.now);
      Put(s, t, th.(pc := Releasing, stamps := stamps,
                    reply := Done(Detected(th.image.cols, th.image.rows, th.report), TimingOf(stamps))))
    case Releasing =>
      Put(s, t, th.(pc := Returned)).(holder := Free)
    case _ => s
  }

  function TimingOf(stamps: Stamps): Timing {
    Timing(ElapsedUs(stamps.totalStart, stamps.decodeEnd), ElapsedUs(stamps.queueStart, stamps.queueEnd),
           ElapsedUs(stamps.inferenceStart, stamps.inferenceEnd), ElapsedUs(stamps.totalStart, stamps.totalEnd))
  }

  function StampLast(tickets: seq<Ticket>, start: nat, end: nat): seq<Ticket> {
    if tickets == [] then tickets
    else tickets[..|tickets| - 1] + [tickets[|tickets| - 1].(start := start, end := end)]
  }

  function FaultLast(tickets: seq<Ticket>, fault: Fault): seq<Ticket> {
    if tickets == [] then tickets
    else tickets[..|tickets| - 1] + [tickets[|tickets| - 1].(fault := fault)]
  }

  function Apply(dev: Device, s: State, e: Event): State
    requires dev.modelWidth > 0 && dev.modelHeight > 0 && Enabled(s, e)
  {
    match e
    case Arrive(t, request) => Put(s, t, NewThread(request))
    case Tick(nanos) => s.(now := s.now + nanos)
    case Act(t, fault) =>
      if BeforeLock(s.threads[t].pc) then ActAlone(dev, s, t) else ActHolding(dev, s, t, fault)
  }

  predicate BeforeLock(pc: Pc) {
    pc.Entering? || pc.Decoding? || pc.Adding? || pc.Queueing? || pc.Locking?
  }

  /** Between taking and releasing the mutex. */
  predicate Critical(pc: Pc) {
    !BeforeLock(pc) && pc != Returned
  }

  /** Between `fetch_add` and `fetch_sub`. */
  predicate Counted(pc: Pc) {
    pc.Queueing? || pc.Locking? || pc.Dequeueing? || pc.Subtracting?
  }

  // ---------------------------------------------------------------------
  // Runs
  // ---------------------------------------------------------------------

  /** An idle engine; its input memory has the model's size. */
  ghost predicate Idle(dev: Device, s: State) {
    && s.waiting == 0 && s.holder == Free && s.threads == map[] && s.tickets == []
    && |s.memory.input| == dev.inputSize
  }

  datatype Run = Run(events: seq<Event>, states: seq<State>)

  ghost predicate StepHolds(dev: Device, r: Run, i: nat)
    requires dev.Ok() && |r.states| == |r.events| + 1 && i < |r.events|
  {
    Enabled(r.states[i], r.events[i]) && r.states[i + 1] == Apply(dev, r.states[i], r.events[i])
  }

  /** A run of the engine from an idle state, with any interleaving of any number of threads. */
  ghost predicate Legal(dev: Device, r: Run) {
    && dev.Ok()
    && |r.states| == |r.events| + 1
    && Idle(dev, r.states[0])
    && forall i: nat | i < |r.events| :: StepHolds(dev, r, i)
  }

  lemma {:induction false} StepOf(dev: Device, r: Run, i: nat)
    requires Legal(dev, r) && i < |r.events|
    ensures Enabled(r.states[i], r.events[i]) && r.states[i + 1] == Apply(dev, r.states[i], r.events[i])
  {
    assert StepHolds(dev, r, i);
  }
}
