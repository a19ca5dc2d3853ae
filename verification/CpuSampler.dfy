/**
  The CPU usage sampler: the share of busy time since the previous sample, from
  cumulative 64-bit counters. The quotient is exact here.
 */
module CpuSampler {
  import opened MachineInts
  import opened Ratios
  import opened Wrappers

  /** The eight counters of the first line of /proc/stat; fields it does not have stay zero. */
  datatype Counters = Counters(user: Word, nice: Word, system: Word, idle: Word,
                               ioWait: Word, irq: Word, softIrq: Word, steal: Word)

  /** A reading: the number of fields found, which may be too few, or no file at all. */
  datatype Reading = NoFile | Line(fields: nat, counters: Counters)

  datatype CpuTimes = CpuTimes(idle: Word, total: Word)

  datatype Sample = NoSample | Sampled(times: CpuTimes)

  function IdleOf(c: Counters): nat {
    c.idle + c.ioWait
  }

  function TotalOf(c: Counters): nat {
    c.user + c.nice + c.system + c.idle + c.ioWait + c.irq + c.softIrq + c.steal
  }

  predicate Readable(r: Reading) {
    r.Line? && r.fields >= 4
  }

  /** Unsigned sums wrap. */
  function TimesOf(c: Counters): CpuTimes {
    CpuTimes(IdleOf(c) % WORD, TotalOf(c) % WORD)
  }

  function TotalDelta(previous: CpuTimes, current: CpuTimes): nat
    requires current.total > previous.total
  {
    current.total - previous.total
  }

  /** The busy time since the previous sample, in unsigned arithmetic. */
  function BusyDelta(previous: CpuTimes, current: CpuTimes): nat
    requires current.total > previous.total
  {
    (TotalDelta(previous, current) - (current.idle - previous.idle) % WORD) % WORD
  }

  function Usage(previous: Sample, current: CpuTimes): real {
    if previous.Sampled? && current.total > previous.times.total then
      100.0 * BusyDelta(previous.times, current) as real / TotalDelta(previous.times, current) as real
    else 0.0
  }

  /** Codes 0, -2 and -3: all read, no CPU counters, or one of the later files unreadable. */
  datatype Outcome = Read(usage: real) | NoCpu | NoRest(usage: real)

  function Next(previous: Sample, r: Reading): Sample {
    if Readable(r) then Sampled(TimesOf(r.counters)) else previous
  }

  /** The idle and the total time of a line of counters, as unsigned 64-bit sums. */
  predicate AreTimes(c: Counters, times: CpuTimes) {
    var idle := c.idle + c.ioWait;
    var total := c.user + c.nice + c.system + c.idle + c.ioWait + c.irq + c.softIrq + c.steal;
    IsRemainder(times.idle, idle) && IsRemainder(times.total, total)
  }

  /** What is left of a sum in 64 bits. */
  predicate IsRemainder(r: nat, sum: nat) {
    r == sum % WORD
  }

  /**
    What is reported: zero without a sample before or when the total has not grown; otherwise the busy
    share in percent of the time since, with the busy time in unsigned arithmetic.
   */
  predicate IsUsage(previous: Sample, current: CpuTimes, usage: real) {
    match previous
    case NoSample => usage == 0.0
    case Sampled(before) =>
      var total, idle := current.total - before.total, current.idle - before.idle;
      if total <= 0 then usage == 0.0
      else usage * total as real == 100.0 * ((total - idle) % WORD) as real
  }

  lemma {:induction false} WrapsOnce(total: int, idle: int)
    ensures (total - idle % WORD) % WORD == (total - idle) % WORD
  {
    var q := (total - idle % WORD) / WORD - idle / WORD;
    var r := (total - idle % WORD) % WORD;
    assert total - idle == q * WORD + r && 0 <= r < WORD;
  }

  lemma {:induction false} ShareOfTime(total: int, idle: int)
    requires total > 0
    ensures
      100.0 * ((total - idle % WORD) % WORD) as real / total as real * total as real
      == 100.0 * ((total - idle) % WORD) as real
  {
    WrapsOnce(total, idle);
    QuotientTimes(100.0 * ((total - idle % WORD) % WORD) as real, total as real);
  }

  lemma {:induction false} UsageMeasured(previous: Sample, current: CpuTimes)
    ensures IsUsage(previous, current, Usage(previous, current))
  {
    if previous.Sampled? && current.total > previous.times.total {
      ShareOfTime(current.total - previous.times.total, current.idle - previous.times.idle);
    }
  }

  lemma {:induction false} TimesMeasured(c: Counters)
    ensures AreTimes(c, TimesOf(c))
  {
    assert IsRemainder(TimesOf(c).idle, IdleOf(c));
    assert IsRemainder(TimesOf(c).total, TotalOf(c));
  }

  /** The usage to report with a new sample. */
  method MeasureUsage(previous: Sample, current: CpuTimes) returns (usage: real)
    ensures IsUsage(previous, current, usage) && usage == Usage(previous, current)
  {
    usage := 0.0;
    if previous.Sampled? && current.total > previous.times.total {
      var totalDelta := current.total - previous.times.total;
      var idleDelta := (current.idle - previous.times.idle) % WORD;
      usage := 100.0 * ((totalDelta - idleDelta) % WORD) as real / totalDelta as real;
      ShareOfTime(totalDelta, current.idle - previous.times.idle);
    }
  }

  class Sampler {
    var previous: Sample

    /** The sampler takes a first sample when it is made, if it can. */
    constructor (first: Reading)
      ensures previous == Next(NoSample, first)
      ensures previous.NoSample? <==> first.NoFile? || first.fields < 4
      ensures previous.Sampled? ==> AreTimes(first.counters, previous.times)
    {
      previous := if Readable(first) then Sampled(TimesOf(first.counters)) else NoSample;
      if first.Line? {
        TimesMeasured(first.counters);
      }
    }

    /**
      A sample is kept even when the rest of the metrics cannot be read afterwards. Without a sample before,
      or when the total has not grown, the usage is zero; otherwise it is the busy share of the time
      since, in unsigned arithmetic.
     */
    method ReadMetrics(r: Reading, restReadable: bool) returns (outcome: Outcome)
      modifies this
      ensures previous == Next(old(previous), r)
      ensures r.NoFile? || r.fields < 4 ==> outcome == NoCpu && previous == old(previous)
      ensures r.Line? && r.fields >= 4 ==>
        && previous.Sampled? && (if restReadable then outcome.Read? else outcome.NoRest?)
        && AreTimes(r.counters, previous.times) && IsUsage(old(previous), previous.times, outcome.usage)
        && (old(previous).NoSample? || previous.times.total <= old(previous).times.total ==> outcome.usage == 0.0)
        && outcome.usage == Usage(old(previous), previous.times)
    {
      if r.NoFile? || r.fields < 4 {
        return NoCpu;
      }
      var current := TimesOf(r.counters);
      var usage := MeasureUsage(previous, current);
      TimesMeasured(r.counters);
      previous := Sampled(current);
      if !restReadable {
        return NoRest(usage);
      }
      return Read(usage);
    }
  }

  // ---------------------------------------------------------------------
  // When the usage is a percentage
  // ---------------------------------------------------------------------

  lemma {:induction false} RatioInRange(part: nat, whole: nat)
    requires whole > 0
    ensures 0.0 <= 100.0 * part as real / whole as real
    ensures 100.0 * part as real / whole as real <= 100.0 <==> part <= whole
  {
    var q, w := part as real / whole as real, whole as real;
    QuotientTimes(part as real, w);
    assert 100.0 * part as real / w == 100.0 * q;
    OrderScaled(0.0, q, w);
    OrderScaled(q, 1.0, w);
  }

  /** Busy time in unsigned arithmetic, for a total that grew by `t` and an idle time that changed by `i`. */
  lemma {:induction false} WrappedBusy(t: nat, i: int)
    requires 0 < t < WORD && -(WORD as int) < i < WORD
    ensures (t - i % WORD) % WORD <= t <==> 0 <= i <= t || t - i >= WORD
    ensures 0 <= i <= t ==> (t - i % WORD) % WORD == t - i
  {
    if i >= 0 {
      assert i % WORD == i;
      assert (t - i) % WORD == if i <= t then t - i else t - i + WORD;
    } else {
      assert i % WORD == i + WORD;
      assert (t - i - WORD) % WORD == if t - i < WORD then t - i else t - i - WORD;
    }
  }

  /**
    A reported usage lies between 0 and 100 exactly when the idle time did not go back and grew no
    more than the total; going back by so much that the sum wraps also hides it.
   */
  lemma {:induction false} UsageIsPercentageExactly(previous: CpuTimes, current: CpuTimes)
    requires current.total > previous.total
    ensures 0.0 <= Usage(Sampled(previous), current)
    ensures Usage(Sampled(previous), current) <= 100.0 <==>
      || previous.idle <= current.idle <= previous.idle + (current.total - previous.total)
      || previous.idle - current.idle + (current.total - previous.total) >= WORD
  {
    WrappedBusy(TotalDelta(previous, current), current.idle - previous.idle);
    RatioInRange(BusyDelta(previous, current), TotalDelta(previous, current));
  }

  /** Idle time that goes back while the total grows is reported as more than a hundred percent. */
  lemma {:induction false} UsageCanExceedAHundred()
    ensures
      var before := Counters(0, 0, 0, 100, 0, 0, 0, 0);
      var after := Counters(200, 0, 0, 50, 0, 0, 0, 0);
      Usage(Sampled(TimesOf(before)), TimesOf(after)) > 100.0
  {
    var previous, current := CpuTimes(100, 100), CpuTimes(50, 250);
    assert TimesOf(Counters(0, 0, 0, 100, 0, 0, 0, 0)) == previous;
    assert TimesOf(Counters(200, 0, 0, 50, 0, 0, 0, 0)) == current;
    UsageIsPercentageExactly(previous, current);
  }

  // ---------------------------------------------------------------------
  // Whole runs
  // ---------------------------------------------------------------------

  /** The sampler's state after the first `n` readings; failed readings leave it alone. */
  function StateAfter(first: Sample, rs: seq<Reading>, n: nat): Sample
    requires n <= |rs|
  {
    if n == 0 then first else Next(StateAfter(first, rs, n - 1), rs[n - 1])
  }

  /** The total time between a sample and the one before it, as far as the code uses it. */
  function Weight(previous: Sample, current: CpuTimes): nat {
    if previous.Sampled? && current.total > previous.times.total then TotalDelta(previous.times, current) else 0
  }

  function WeightedUsageOf(previous: Sample, current: CpuTimes): real {
    Usage(previous, current) * Weight(previous, current) as real
  }

  /** The usage computed at a reading times the time it covers; a failed reading adds nothing. */
  function Contribution(previous: Sample, r: Reading): real {
    if Readable(r) then WeightedUsageOf(previous, TimesOf(r.counters)) else 0.0
  }

  /** The sum over the readings of the usage computed, weighted with the time it covers. */
  function WeightedUsage(first: Sample, rs: seq<Reading>, n: nat): real
    requires n <= |rs|
  {
    if n == 0 then 0.0
    else WeightedUsage(first, rs, n - 1) + Contribution(StateAfter(first, rs, n - 1), rs[n - 1])
  }

  /** What the kernel counted as busy. */
  function BusyOf(c: Counters): nat {
    c.user + c.nice + c.system + c.irq + c.softIrq + c.steal
  }

  /** A hundred times the busy time between two readings of the counters. */
  function BusyTime(a: Counters, b: Counters): real {
    100.0 * (BusyOf(b) - BusyOf(a)) as real
  }

  function SampleOf(c: Option<Counters>): Sample {
    if c.Some? then Sampled(TimesOf(c.value)) else NoSample
  }

  /** The counters of the last readable reading; without one, those the sampler started with, if any. */
  function LastCounters(first: Option<Counters>, rs: seq<Reading>, n: nat): Option<Counters>
    requires n <= |rs|
  {
    if n == 0 then first
    else if Readable(rs[n - 1]) then Some(rs[n - 1].counters)
    else LastCounters(first, rs, n - 1)
  }

  /** The counters the sampler started with; without them, those of the first readable reading, if any. */
  function FirstCounters(first: Option<Counters>, rs: seq<Reading>, n: nat): Option<Counters>
    requires n <= |rs|
  {
    if n == 0 then first
    else if FirstCounters(first, rs, n - 1).Some? then FirstCounters(first, rs, n - 1)
    else if Readable(rs[n - 1]) then Some(rs[n - 1].counters)
    else None
  }

  predicate NotBelow(a: Counters, b: Counters) {
    && a.user <= b.user && a.nice <= b.nice && a.system <= b.system && a.idle <= b.idle
    && a.ioWait <= b.ioWait && a.irq <= b.irq && a.softIrq <= b.softIrq && a.steal <= b.steal
  }

  /** The sum of the counters has not wrapped, and none is below what it was when last read. */
  predicate Grown(last: Option<Counters>, c: Counters) {
    TotalOf(c) < WORD && (last.Some? ==> NotBelow(last.value, c))
  }

  /** Counters that only grow from one readable reading to the next. */
  predicate Growing(first: Option<Counters>, rs: seq<Reading>, n: nat)
    requires n <= |rs|
  {
    n > 0 ==>
      && Growing(first, rs, n - 1)
      && (Readable(rs[n - 1]) ==> Grown(LastCounters(first, rs, n - 1), rs[n - 1].counters))
  }

  /** The idle time did not go back and grew no more than the total. */
  predicate Grew(previous: CpuTimes, current: CpuTimes) {
    previous.total <= current.total && 0 <= current.idle - previous.idle <= current.total - previous.total
  }

  lemma {:induction false} NoWrap(c: Counters)
    requires TotalOf(c) < WORD
    ensures TimesOf(c) == CpuTimes(IdleOf(c), TotalOf(c)) && TotalOf(c) == IdleOf(c) + BusyOf(c)
  {
  }

  lemma {:induction false} CountersGrow(a: Counters, b: Counters)
    requires NotBelow(a, b) && TotalOf(b) < WORD
    ensures Grew(TimesOf(a), TimesOf(b))
    ensures
      (TimesOf(b).total - TimesOf(b).idle) - (TimesOf(a).total - TimesOf(a).idle) == BusyOf(b) - BusyOf(a)
  {
    assert TotalOf(a) <= TotalOf(b);
    NoWrap(a);
    NoWrap(b);
  }

  lemma {:induction false} UsageOfGrowth(previous: CpuTimes, current: CpuTimes)
    requires Grew(previous, current)
    ensures 0.0 <= Usage(Sampled(previous), current) <= 100.0
    ensures WeightedUsageOf(Sampled(previous), current) ==
      100.0 * ((current.total - current.idle) - (previous.total - previous.idle)) as real
  {
    if current.total > previous.total {
      var t, i := current.total - previous.total, current.idle - previous.idle;
      UsageIsPercentageExactly(previous, current);
      assert BusyDelta(previous, current) == t - i by {
        WrappedBusy(t, i);
      }
      assert Usage(Sampled(previous), current) == 100.0 * (t - i) as real / t as real;
      QuotientTimes(100.0 * (t - i) as real, t as real);
    }
  }

  lemma {:induction false} StateIsLastReading(first: Option<Counters>, rs: seq<Reading>, n: nat)
    requires n <= |rs|
    ensures StateAfter(SampleOf(first), rs, n) == SampleOf(LastCounters(first, rs, n))
  {
    if n > 0 {
      StateIsLastReading(first, rs, n - 1);
    }
  }

  /** Every usage computed from growing counters is a percentage. */
  lemma {:induction false} UsageInRange(first: Option<Counters>, rs: seq<Reading>, n: nat)
    requires n < |rs| && Growing(first, rs, n + 1) && Readable(rs[n])
    ensures 0.0 <= Usage(StateAfter(SampleOf(first), rs, n), TimesOf(rs[n].counters)) <= 100.0
  {
    StateIsLastReading(first, rs, n);
    var last := LastCounters(first, rs, n);
    if last.Some? {
      CountersGrow(last.value, rs[n].counters);
      UsageOfGrowth(TimesOf(last.value), TimesOf(rs[n].counters));
    }
  }

  /**
    The telescoping law: over any run of readings, failed ones included, the usages weighted with
    the time they cover add up to a hundred times what the kernel counted as busy between the
    first and the last sample.
   */
  lemma {:induction false} UsageTelescopes(first: Option<Counters>, rs: seq<Reading>, n: nat)
    requires n <= |rs| && Growing(first, rs, n)
    ensures FirstCounters(first, rs, n).Some? <==> LastCounters(first, rs, n).Some?
    ensures WeightedUsage(SampleOf(first), rs, n) ==
      if LastCounters(first, rs, n).None? then 0.0
      else BusyTime(FirstCounters(first, rs, n).value, LastCounters(first, rs, n).value)
  {
    if n == 0 {
    } else {
      UsageTelescopes(first, rs, n - 1);
      StateIsLastReading(first, rs, n - 1);
      if Readable(rs[n - 1]) {
        OneMoreReading(LastCounters(first, rs, n - 1), rs[n - 1]);
      }
    }
  }

  /** A readable reading adds the busy time since the one before it. */
  lemma {:induction false} OneMoreReading(last: Option<Counters>, r: Reading)
    requires Readable(r) && Grown(last, r.counters)
    ensures Contribution(SampleOf(last), r) == if last.Some? then BusyTime(last.value, r.counters) else 0.0
  {
    if last.Some? {
      CountersGrow(last.value, r.counters);
      UsageOfGrowth(TimesOf(last.value), TimesOf(r.counters));
    }
  }
}
