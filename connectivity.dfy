/**
 * The monitor's state machine on values: connectivity state, the exception
 * queue and the stop flag, and what one probe, one sink write, one cycle and
 * a whole run of the loop do to them. The class in module Monitor is proved
 * to follow these functions step by step.
 */
module Connectivity {
  import opened Wrappers
  import opened Points

  /** What one TCP connect attempt to the target yields. */
  datatype ProbeOutcome = Success(latency: nat) | Failure(cause: string)

  /** What the metrics database does with one write. */
  datatype WriteOutcome = Accepted | Rejected(cause: string)

  /** An exception put on the exception queue, by the step that caught it. */
  datatype Fault = ProbeFault(cause: string) | WriteFault(cause: string)

  /** The monitor's mutable state. */
  datatype MonitorState = MonitorState(
    connected: bool,
    lastSuccessTime: int,
    lastCheckTime: int,
    faults: seq<Fault>,
    stopped: bool)

  /** The environment of one loop iteration: the probe's outcome, the sink's answer,
      the clock when the probe completes, and whether `stop()` is called meanwhile. */
  datatype CycleInput = CycleInput(probe: ProbeOutcome, write: WriteOutcome, now: int, stopRequested: bool)

  /** The state of a monitor built at time `now`. */
  function Initial(now: int): (s: MonitorState)
    ensures Ordered(s) && s.connected && s.faults == [] && !s.stopped
  {
    MonitorState(true, now, now, [], false)
  }

  /** The state after `_measure_latency` at time `now`. */
  function AfterProbe(s: MonitorState, probe: ProbeOutcome, now: int): (t: MonitorState)
    ensures Coherent(t) && t.lastCheckTime == now && t.stopped == s.stopped
  {
    match probe
    case Success(_) => s.(connected := true, lastSuccessTime := now, lastCheckTime := now)
    case Failure(cause) => s.(connected := false, lastCheckTime := now, faults := s.faults + [ProbeFault(cause)])
  }

  /** The pair `_measure_latency` returns: `(latency, True)` or `(None, False)`. */
  function ProbeResult(probe: ProbeOutcome): (r: (Option<nat>, bool))
    ensures r.1 <==> probe.Success?
    ensures r.0.Some? <==> r.1
    ensures r.1 ==> r.0.value == probe.latency
  {
    match probe
    case Success(latency) => (Some(latency), true)
    case Failure(_) => (None, false)
  }

  /** The state after `_write_metrics` hands its point to the sink. */
  function AfterWrite(s: MonitorState, write: WriteOutcome): (t: MonitorState)
    ensures s.faults <= t.faults && |t.faults| == |s.faults| + (if write.Rejected? then 1 else 0)
    ensures t.(faults := s.faults) == s
  {
    match write
    case Accepted => s
    case Rejected(cause) => s.(faults := s.faults + [WriteFault(cause)])
  }

  /** The state after `stop()`. */
  function AfterStop(s: MonitorState): (t: MonitorState)
    ensures t.stopped && t.(stopped := s.stopped) == s
  {
    s.(stopped := true)
  }

  /** The downtime `get_status` reports at time `now`. */
  function Downtime(s: MonitorState, now: int): int {
    if s.connected then 0 else now - s.lastSuccessTime
  }

  /** The state after one iteration of the loop body. */
  function AfterCycle(s: MonitorState, c: CycleInput): (t: MonitorState)
    ensures t.connected == c.probe.Success? && t.lastCheckTime == c.now
    ensures t.stopped == (s.stopped || c.stopRequested)
    ensures s.faults <= t.faults && |t.faults| == |s.faults| + CycleFaults(c)
  {
    var s' := AfterWrite(AfterProbe(s, c.probe, c.now), c.write);
    if c.stopRequested then AfterStop(s') else s'
  }

  /** The point written in one iteration of the loop body. */
  function CyclePoint(host: string, port: int, c: CycleInput): (p: Point)
    ensures p.measurement == LatencyMeasurement <==> c.probe.Success?
  {
    var (latency, success) := ProbeResult(c.probe);
    MetricPoint(host, port, latency, success)
  }

  /**
   * The number of iterations the loop completes, starting with stop flag
   * `stopped`: none once the flag is set, and otherwise every cycle up to and
   * including the first during which `stop()` is called.
   */
  function CyclesRun(stopped: bool, schedule: seq<CycleInput>): (k: nat)
    ensures k <= |schedule|
    ensures stopped ==> k == 0
    ensures !stopped ==> forall j :: 0 <= j < k - 1 ==> !schedule[j].stopRequested
    ensures !stopped && k < |schedule| ==> 0 < k && schedule[k - 1].stopRequested
    decreases |schedule|
  {
    if stopped || schedule == [] then 0 else 1 + CyclesRun(schedule[0].stopRequested, schedule[1..])
  }

  /** The state after `run()` has worked through `schedule`. */
  function RunState(s: MonitorState, schedule: seq<CycleInput>): MonitorState
    decreases |schedule|
  {
    if s.stopped || schedule == [] then s else RunState(AfterCycle(s, schedule[0]), schedule[1..])
  }

  /** The points `run()` hands to the sink while working through `schedule`. */
  function RunPoints(host: string, port: int, stopped: bool, schedule: seq<CycleInput>): seq<Point>
    decreases |schedule|
  {
    if stopped || schedule == [] then []
    else [CyclePoint(host, port, schedule[0])] + RunPoints(host, port, schedule[0].stopRequested, schedule[1..])
  }

  /** The largest whole number of seconds `time.sleep` accepts: CPython converts
      the argument to a signed 64-bit count of nanoseconds. */
  const MaxSleepSeconds: int := 9223372036

  /** Whether `time.sleep(interval)` raises: `ValueError` for a negative
      interval, `OverflowError` for one too large for 64-bit nanoseconds. */
  predicate SleepRaises(interval: int) {
    interval < 0 || interval > MaxSleepSeconds
  }

  /**
   * The part of `schedule` that `run()` can get through with check interval
   * `interval`: when `time.sleep` raises, it does so right after the first
   * cycle, which ends `run()` by exception.
   */
  function WorkedSchedule(interval: int, schedule: seq<CycleInput>): (w: seq<CycleInput>)
    ensures w <= schedule
    ensures !SleepRaises(interval) ==> w == schedule
    ensures SleepRaises(interval) && schedule != [] ==> w == schedule[..1]
  {
    if SleepRaises(interval) && |schedule| > 1 then schedule[..1] else schedule
  }

  /** One iteration of a run that is not stopped, at position `i` of its input. */
  lemma RunStep(s: MonitorState, host: string, port: int, work: seq<CycleInput>, i: nat, done: seq<Point>)
    requires !s.stopped && i < |work|
    ensures RunState(AfterCycle(s, work[i]), work[i + 1..]) == RunState(s, work[i..])
    ensures (done + [CyclePoint(host, port, work[i])]) + RunPoints(host, port, work[i].stopRequested, work[i + 1..]) ==
      done + RunPoints(host, port, s.stopped, work[i..])
    ensures i + 1 + CyclesRun(work[i].stopRequested, work[i + 1..]) == i + CyclesRun(s.stopped, work[i..])
  {
    assert work[i..][0] == work[i] && work[i..][1..] == work[i + 1..];
  }

  /** How many exceptions one cycle puts on the queue. */
  function CycleFaults(c: CycleInput): nat {
    (if c.probe.Failure? then 1 else 0) + (if c.write.Rejected? then 1 else 0)
  }

  /** Failed probes plus rejected writes over a sequence of cycles. */
  function Failures(cycles: seq<CycleInput>): nat {
    if cycles == [] then 0 else CycleFaults(cycles[0]) + Failures(cycles[1..])
  }

  /** A connected monitor last succeeded at its last check. */
  predicate Coherent(s: MonitorState) {
    s.connected ==> s.lastSuccessTime == s.lastCheckTime
  }

  /** Coherent, and the last success is no later than the last check. */
  predicate Ordered(s: MonitorState) {
    Coherent(s) && s.lastSuccessTime <= s.lastCheckTime
  }

  /** The clock never goes backwards, starting from time `t`. */
  predicate MonotoneClock(t: int, schedule: seq<CycleInput>) {
    forall i, j :: 0 <= i <= j < |schedule| ==> t <= schedule[i].now <= schedule[j].now
  }

  // ---- a single probe ----

  /** A successful probe marks the target connected at `now` and queues nothing;
      a failed one marks it disconnected at `now`, keeps the last success and
      queues exactly one exception. Neither touches the stop flag. */
  lemma ProbeEffect(s: MonitorState, probe: ProbeOutcome, now: int)
    ensures var t := AfterProbe(s, probe, now);
      t.connected == probe.Success? && t.lastCheckTime == now && t.stopped == s.stopped &&
      (probe.Success? ==> t.lastSuccessTime == now && t.faults == s.faults) &&
      (probe.Failure? ==> t.lastSuccessTime == s.lastSuccessTime && t.faults == s.faults + [ProbeFault(probe.cause)])
  {
  }

  /** With a clock that does not go backwards, a probe keeps the state ordered
      and never moves the last check time back. */
  lemma ProbeKeepsOrdered(s: MonitorState, probe: ProbeOutcome, now: int)
    requires Ordered(s) && s.lastCheckTime <= now
    ensures Ordered(AfterProbe(s, probe, now))
    ensures s.lastCheckTime <= AfterProbe(s, probe, now).lastCheckTime
  {
  }

  /** Right after a success the reported downtime is zero; after a failure it is
      measured from the last success before it. */
  lemma DowntimeAfterProbe(s: MonitorState, probe: ProbeOutcome, now: int, later: int)
    ensures Downtime(AfterProbe(s, probe, now), later) == if probe.Success? then 0 else later - s.lastSuccessTime
  {
  }

  /** In an ordered state the downtime is never negative. */
  lemma DowntimeNonNegative(s: MonitorState, now: int)
    requires Ordered(s) && s.lastCheckTime <= now
    ensures 0 <= Downtime(s, now)
    ensures !s.connected ==> now - s.lastCheckTime <= Downtime(s, now)
  {
  }

  // ---- a single write and stop ----

  /** `stop()` is idempotent. */
  lemma StopIdempotent(s: MonitorState)
    ensures AfterStop(AfterStop(s)) == AfterStop(s)
  {
  }

  // ---- a whole run ----

  /** Once the stop flag is set, the loop probes and writes nothing more. */
  lemma RunAfterStop(s: MonitorState, host: string, port: int, schedule: seq<CycleInput>)
    requires s.stopped
    ensures RunState(s, schedule) == s
    ensures RunPoints(host, port, s.stopped, schedule) == []
    ensures CyclesRun(s.stopped, schedule) == 0
  {
  }

  /** A `stop()` during cycle `j` means no cycle after `j` runs; if the loop
      reached cycle `j`, that cycle itself still completes. */
  lemma StopEndsRun(stopped: bool, schedule: seq<CycleInput>, j: nat)
    requires j < |schedule| && schedule[j].stopRequested
    ensures CyclesRun(stopped, schedule) <= j + 1
    ensures !stopped && (forall i :: 0 <= i < j ==> !schedule[i].stopRequested) ==> CyclesRun(stopped, schedule) == j + 1
  {
  }

  /** Exactly one point per completed cycle, each the point of that cycle. */
  lemma {:induction false} RunPointsPerCycle(host: string, port: int, stopped: bool, schedule: seq<CycleInput>)
    ensures |RunPoints(host, port, stopped, schedule)| == CyclesRun(stopped, schedule)
    ensures forall j :: 0 <= j < CyclesRun(stopped, schedule) ==>
      RunPoints(host, port, stopped, schedule)[j] == CyclePoint(host, port, schedule[j])
    decreases |schedule|
  {
    if !stopped && schedule != [] {
      RunPointsPerCycle(host, port, schedule[0].stopRequested, schedule[1..]);
    }
  }

  lemma FailuresSplit(c: CycleInput, rest: seq<CycleInput>)
    ensures Failures([c] + rest) == CycleFaults(c) + Failures(rest)
  {
    assert ([c] + rest)[1..] == rest;
  }

  /**
   * The exception queue never shrinks, and over the completed cycles it grows
   * by exactly the number of failed probes plus rejected writes.
   */
  lemma {:induction false} RunFaults(s: MonitorState, schedule: seq<CycleInput>)
    ensures var k := CyclesRun(s.stopped, schedule);
      s.faults <= RunState(s, schedule).faults &&
      |RunState(s, schedule).faults| == |s.faults| + Failures(schedule[..k])
    decreases |schedule|
  {
    if !s.stopped && schedule != [] {
      var c := schedule[0];
      var s1 := AfterCycle(s, c);
      RunFaults(s1, schedule[1..]);
      var k := CyclesRun(s.stopped, schedule);
      var k1 := CyclesRun(s1.stopped, schedule[1..]);
      assert s1.stopped == c.stopRequested;
      assert k == 1 + k1;
      assert schedule[..k] == [c] + schedule[1..][..k1];
      FailuresSplit(c, schedule[1..][..k1]);
      assert s.faults <= s1.faults;
      assert |s1.faults| == |s.faults| + CycleFaults(c);
    }
  }

  /**
   * After a run, `connected` and `last_check_time` reflect the last completed
   * cycle, the stop flag is set exactly when it was before or `stop()` came
   * during the last cycle, and the loop only ends early by being stopped.
   */
  lemma {:induction false} RunLastCycle(s: MonitorState, schedule: seq<CycleInput>)
    ensures var k := CyclesRun(s.stopped, schedule); var t := RunState(s, schedule);
      (k == 0 ==> t == s) &&
      (k > 0 ==> t.connected == schedule[k - 1].probe.Success? && t.lastCheckTime == schedule[k - 1].now) &&
      t.stopped == (s.stopped || (k > 0 && schedule[k - 1].stopRequested)) &&
      (t.stopped || k == |schedule|)
    decreases |schedule|
  {
    if !s.stopped && schedule != [] {
      var s1 := AfterCycle(s, schedule[0]);
      RunLastCycle(s1, schedule[1..]);
      assert s1.stopped == schedule[0].stopRequested;
    }
  }

  /**
   * After a run, `last_success_time` is the completion time of the last
   * successful probe among the completed cycles, or is unchanged if every
   * completed cycle failed.
   */
  lemma {:induction false} RunLastSuccess(s: MonitorState, schedule: seq<CycleInput>)
    ensures var k := CyclesRun(s.stopped, schedule); var t := RunState(s, schedule);
      (t.lastSuccessTime == s.lastSuccessTime && forall j :: 0 <= j < k ==> schedule[j].probe.Failure?) ||
      (exists j :: 0 <= j < k && schedule[j].probe.Success? && t.lastSuccessTime == schedule[j].now &&
        forall i :: j < i < k ==> schedule[i].probe.Failure?)
    decreases |schedule|
  {
    if !s.stopped && schedule != [] {
      var c := schedule[0];
      var rest := schedule[1..];
      var s1 := AfterCycle(s, c);
      RunLastSuccess(s1, rest);
      var k := CyclesRun(s.stopped, schedule);
      var k1 := CyclesRun(s1.stopped, rest);
      var t := RunState(s, schedule);
      assert s1.stopped == c.stopRequested;
      assert k == 1 + k1;
      assert t == RunState(s1, rest);
      if t.lastSuccessTime == s1.lastSuccessTime && forall j :: 0 <= j < k1 ==> rest[j].probe.Failure? {
        assert forall j :: 1 <= j < k ==> schedule[j].probe.Failure? by {
          forall j | 1 <= j < k ensures schedule[j].probe.Failure? {
            assert schedule[j] == rest[j - 1];
          }
        }
        if c.probe.Success? {
          assert t.lastSuccessTime == schedule[0].now;
          assert forall i :: 0 < i < k ==> schedule[i].probe.Failure?;
        }
      } else {
        var j :| 0 <= j < k1 && rest[j].probe.Success? && t.lastSuccessTime == rest[j].now &&
          forall i :: j < i < k1 ==> rest[i].probe.Failure?;
        assert schedule[j + 1] == rest[j];
        forall i | j + 1 < i < k ensures schedule[i].probe.Failure? {
          assert schedule[i] == rest[i - 1];
        }
      }
    }
  }

  /** Every state a run reaches is coherent if the first one is. */
  lemma {:induction false} RunKeepsCoherent(s: MonitorState, schedule: seq<CycleInput>)
    requires Coherent(s)
    ensures Coherent(RunState(s, schedule))
    decreases |schedule|
  {
    if !s.stopped && schedule != [] {
      RunKeepsCoherent(AfterCycle(s, schedule[0]), schedule[1..]);
    }
  }

  /** With a clock that does not go backwards, a run keeps the state ordered,
      so the downtime it reports later is never negative, and the last check
      time never goes back. */
  lemma {:induction false} RunKeepsOrdered(s: MonitorState, schedule: seq<CycleInput>)
    requires Ordered(s) && MonotoneClock(s.lastCheckTime, schedule)
    ensures Ordered(RunState(s, schedule))
    ensures s.lastCheckTime <= RunState(s, schedule).lastCheckTime
    decreases |schedule|
  {
    if !s.stopped && schedule != [] {
      var s1 := AfterCycle(s, schedule[0]);
      assert s1.lastCheckTime == schedule[0].now;
      assert MonotoneClock(s1.lastCheckTime, schedule[1..]) by {
        forall i, j | 0 <= i <= j < |schedule[1..]|
          ensures s1.lastCheckTime <= schedule[1..][i].now <= schedule[1..][j].now
        {
          assert schedule[1..][i] == schedule[i + 1] && schedule[1..][j] == schedule[j + 1];
        }
      }
      RunKeepsOrdered(s1, schedule[1..]);
    }
  }
}
