/**
  The inference call itself, as one thread executes it when nobody competes: the shared input
  memory is an array written in place, and the queue counter goes up and down again.
 */
module Engine {
  import opened Detections
  import opened MachineInts
  import opened Npu
  import opened NpuSafety

  class Engine {
    const device: Device
    const input: array<nat>
    var output: seq<nat>
    var waiting: nat

    ghost predicate Valid()
      reads this
    {
      device.Ok() && input.Length == device.inputSize && waiting < UINT32
    }

    ghost function Contents(): Memory
      reads this, input
    {
      Memory(input[..], output)
    }

    constructor (device: Device)
      requires device.Ok()
      ensures Valid() && this.device == device && waiting == 0 && fresh(input)
    {
      this.device := device;
      input := new nat[device.inputSize];
      output := [];
      waiting := 0;
    }

    /** Writes the resized image over the whole input memory. */
    method ResizeInto(image: Image)
      requires Valid()
      modifies input
      ensures Valid() && input[..] == device.resize(image)
    {
      var target := device.resize(image);
      var k := 0;
      while k < input.Length
        invariant 0 <= k <= input.Length
        invariant forall j | 0 <= j < k :: input[j] == target[j]
      {
        input[k] := target[k];
        k := k + 1;
      }
    }

    /** Codes -1, -2, -3 and 0 are the four kinds of reply; the clock readings are given. */
    method Infer(request: Request, fault: Fault, stamps: Stamps) returns (reply: Reply)
      requires Valid()
      modifies this, input
      ensures Valid() && waiting == old(waiting)
      ensures
        if request.encoded == [] then reply == BadArguments && Contents() == old(Contents())
        else if device.decode(request.encoded).Empty() then reply == Undecodable && Contents() == old(Contents())
        else
          var (outcome, after) := Serve(device, old(Contents()), Ticket(0, request, fault, 0, 0));
          && Contents() == after
          && Answers(reply, outcome)
          && (reply.Done? ==> reply.timing == TimingOf(stamps))
      ensures request.encoded != [] && !device.decode(request.encoded).Empty() ==>
        && input[..] == device.resize(device.decode(request.encoded))
        && output == if fault.RunFault? then fault.garbage else device.run(input[..])
      ensures reply.Done? <==>
        request.encoded != [] && !device.decode(request.encoded).Empty() && fault == NoFault
      ensures reply.Done? ==> IsOwnResult(device, request, reply.outcome)
    {
      if request.encoded == [] {
        return BadArguments;
      }
      var image := device.decode(request.encoded);
      if image.Empty() {
        return Undecodable;
      }
      waiting := (waiting + 1) % UINT32;
      waiting := (waiting - 1) % UINT32;
      ResizeInto(image);
      if fault.RunFault? {
        output := fault.garbage;
        return Failed;
      }
      output := device.run(input[..]);
      if fault == PostFault {
        return Failed;
      }
      UndisturbedTurn(device, old(Contents()), Ticket(0, request, fault, 0, 0));
      var raws := device.Results(output, request.options);
      var report := CopyDetections(raws, request.options.maxDetections, device.FrameOf(image));
      return Done(Detected(image.cols, image.rows, report), TimingOf(stamps));
    }
  }
}
