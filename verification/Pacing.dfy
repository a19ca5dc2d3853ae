/**
  The pacing of a capture worker: a file is played no faster than its frame rate, however
  long reading and handling a frame take. Times are exact seconds.
 */
module Pacing {
  import opened Ratios

  /**
    One turn of the capture loop: whether a frame was read and when, whether the stop flag was set
    at the loop test or while waiting, and how long after its time the frame was handed over.
   */
  datatype Turn = Turn(stopAtTest: bool, available: bool, readAt: real, stopInWait: bool, slack: real)

  datatype Emission = Emission(number: nat, at: real)

  /** A rate the source does not give, or gives out of range, counts as thirty frames a second. */
  function FrameInterval(sourceFps: real): (interval: real)
    ensures interval > 0.0
    ensures 0.0 < sourceFps <= 240.0 ==> interval * sourceFps == 1.0
    ensures sourceFps <= 0.0 || sourceFps > 240.0 ==> interval * 30.0 == 1.0
  {
    1.0 / (if sourceFps <= 0.0 || sourceFps > 240.0 then 30.0 else sourceFps)
  }

  /** The time in the file of frame `k`, counted from zero. */
  function TimeOf(startedAt: real, interval: real, k: nat): real {
    startedAt + k as real * interval
  }

  /** No frame is handed over before its time in the file. */
  ghost predicate Paced(emitted: seq<Emission>, startedAt: real, interval: real) {
    forall k | 0 <= k < |emitted| :: emitted[k].at >= TimeOf(startedAt, interval, k)
  }

  lemma {:induction false} NextTime(startedAt: real, interval: real, k: nat)
    ensures TimeOf(startedAt, interval, k + 1) == TimeOf(startedAt, interval, k) + interval
  {
    assert (k + 1) as real * interval == k as real * interval + interval;
  }

  /** The frames handed over, each with its number and its time. Waiting never ends early, except for the stop flag. */
  method Capture(live: bool, startedAt: real, interval: real, turns: seq<Turn>) returns (emitted: seq<Emission>)
    requires interval > 0.0
    requires forall k | 0 <= k < |turns| :: turns[k].slack >= 0.0
    ensures |emitted| <= |turns|
    ensures forall k | 0 <= k < |emitted| :: emitted[k].number == k + 1
    ensures live ==> forall k | 0 <= k < |emitted| :: emitted[k].at == turns[k].readAt + turns[k].slack
    ensures !live ==> forall k | 0 <= k < |emitted| ::
      var due := TimeOf(startedAt, interval, k);
      emitted[k].at == (if due > turns[k].readAt then due else turns[k].readAt) + turns[k].slack
    ensures !live ==> Paced(emitted, startedAt, interval)
    ensures forall k | 0 <= k < |emitted| :: turns[k].available && !turns[k].stopAtTest
    ensures |emitted| < |turns| ==>
      var last := turns[|emitted|];
      last.stopAtTest || !last.available
      || (!live && last.stopInWait && TimeOf(startedAt, interval, |emitted|) > last.readAt)
  {
    emitted := [];
    var frameNumber := 0;
    var nextFrameAt := startedAt;
    var i := 0;
    while i < |turns| && !turns[i].stopAtTest
      invariant 0 <= i == |emitted| == frameNumber <= |turns|
      invariant !live ==> nextFrameAt == TimeOf(startedAt, interval, i)
      invariant !live ==> Paced(emitted, startedAt, interval)
      invariant forall k | 0 <= k < i :: emitted[k].number == k + 1
      invariant live ==> forall k | 0 <= k < i :: emitted[k].at == turns[k].readAt + turns[k].slack
      invariant !live ==> forall k | 0 <= k < i ::
        var due := TimeOf(startedAt, interval, k);
        emitted[k].at == (if due > turns[k].readAt then due else turns[k].readAt) + turns[k].slack
      invariant forall k | 0 <= k < i :: turns[k].available && !turns[k].stopAtTest
    {
      if !turns[i].available {
        break;
      }
      var at := turns[i].readAt;
      if !live {
        var delay := nextFrameAt - at;
        if delay > 0.0 {
          if turns[i].stopInWait {
            break;
          }
          at := at + delay;
        }
        NextTime(startedAt, interval, i);
        nextFrameAt := nextFrameAt + interval;
      }
      frameNumber := frameNumber + 1;
      emitted := emitted + [Emission(frameNumber, at + turns[i].slack)];
      i := i + 1;
    }
  }

  lemma {:induction false} SmallSetBelow(places: set<nat>, bound: nat)
    requires forall k | k in places :: k < bound
    ensures |places| <= bound
  {
    if bound == 0 {
      assert places == {};
    } else {
      var rest := places - {bound - 1};
      SmallSetBelow(rest, bound - 1);
      assert places <= rest + {bound - 1};
      if bound - 1 in places {
        assert |places| == |rest| + 1;
      } else {
        assert places == rest;
      }
    }
  }

  /** By any time, at most one frame more than the elapsed time holds intervals has been handed over. */
  lemma {:induction false} RateIsBounded(emitted: seq<Emission>, startedAt: real, interval: real, now: real)
    requires interval > 0.0 && Paced(emitted, startedAt, interval) && now >= startedAt
    ensures
      var done := set k: nat | k < |emitted| && emitted[k].at <= now;
      |done| <= ((now - startedAt) / interval).Floor + 1
  {
    var done := set k: nat | k < |emitted| && emitted[k].at <= now;
    var bound := ((now - startedAt) / interval).Floor + 1;
    assert (now - startedAt) / interval >= 0.0;
    forall k | k in done ensures k < bound {
      assert k as real * interval <= now - startedAt;
      AtMostQuotient(k, interval, now - startedAt);
    }
    SmallSetBelow(done, bound);
  }

  lemma {:induction false} AtMostQuotient(k: nat, interval: real, elapsed: real)
    requires interval > 0.0 && k as real * interval <= elapsed
    ensures k <= (elapsed / interval).Floor
  {
    var q := elapsed / interval;
    QuotientTimes(elapsed, interval);
    OrderScaled(k as real, q, interval);
  }
}
