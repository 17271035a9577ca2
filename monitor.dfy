/**
 * The `NetworkLatencyMonitor` object: its configuration, the connectivity
 * fields it updates after every probe, the exception queue it appends to, and
 * the stop flag of its loop. Every state-changing method is tied to the
 * matching function of module Connectivity.
 */
module Monitor {
  import opened Wrappers
  import opened Settings
  import opened Points
  import opened Connectivity

  /** What `get_status` reports; the last success is the raw clock value. */
  datatype StatusReport = StatusReport(connected: bool, lastSuccess: int, downtimeSeconds: int)

  class NetworkLatencyMonitor {
    const config: Config

    var stopFlag: bool
    var exceptionQueue: seq<Fault>
    var currentlyConnected: bool
    var lastSuccessTime: int
    var lastCheckTime: int

    /** A monitor only exists with its four InfluxDB settings set, and while
        connected its last success is its last check. */
    ghost predicate Valid()
      reads this
    {
      CheckMandatory(config).None? && Coherent(State())
    }

    /** The monitor's state as a value. */
    function State(): MonitorState
      reads this
    {
      MonitorState(currentlyConnected, lastSuccessTime, lastCheckTime, exceptionQueue, stopFlag)
    }

    /** The part of `__init__` after validation. */
    constructor (config: Config, now: int)
      requires CheckMandatory(config).None?
      ensures Valid()
      ensures this.config == config
      ensures State() == Initial(now)
      ensures currentlyConnected && lastSuccessTime == now && lastCheckTime == now
      ensures exceptionQueue == [] && !stopFlag
    {
      this.config := config;
      stopFlag := false;
      exceptionQueue := [];
      currentlyConnected := true;
      lastSuccessTime := now;
      lastCheckTime := now;
    }

    /** `_measure_latency`, given the outcome of the connect attempt and the clock when it ended. */
    method MeasureLatency(probe: ProbeOutcome, now: int) returns (latency: Option<nat>, success: bool)
      requires Valid()
      modifies this`currentlyConnected, this`lastSuccessTime, this`lastCheckTime, this`exceptionQueue
      ensures Valid()
      ensures State() == AfterProbe(old(State()), probe, now)
      ensures (latency, success) == ProbeResult(probe)
      ensures success <==> probe.Success?
      ensures currentlyConnected == success && lastCheckTime == now
      ensures success ==> latency == Some(probe.latency) && lastSuccessTime == now && exceptionQueue == old(exceptionQueue)
      ensures !success ==> (latency == None && lastSuccessTime == old(lastSuccessTime) &&
                            exceptionQueue == old(exceptionQueue) + [ProbeFault(probe.cause)])
    {
      match probe
      case Success(ms) =>
        currentlyConnected := true;
        lastSuccessTime := now;
        lastCheckTime := now;
        latency, success := Some(ms), true;
      case Failure(cause) =>
        currentlyConnected := false;
        lastCheckTime := now;
        exceptionQueue := exceptionQueue + [ProbeFault(cause)];
        latency, success := None, false;
    }

    /** `_write_metrics`: builds the cycle's one point, hands it to the sink and
        queues the sink's exception if it rejects the write. Returns the batch
        handed to the sink. */
    method WriteMetrics(latency: Option<nat>, success: bool, write: WriteOutcome) returns (points: seq<Point>)
      requires Valid()
      requires success ==> latency.Some?
      modifies this`exceptionQueue
      ensures Valid()
      ensures State() == AfterWrite(old(State()), write)
      ensures points == [MetricPoint(config.targetHost, config.targetPort, latency, success)]
      ensures exceptionQueue == old(exceptionQueue) + (if write.Rejected? then [WriteFault(write.cause)] else [])
    {
      points := [];
      points := points + [MetricPoint(config.targetHost, config.targetPort, latency, success)];
      match write
      case Accepted =>
      case Rejected(cause) =>
        exceptionQueue := exceptionQueue + [WriteFault(cause)];
    }

    /** `get_status` at time `now`; it reads the state and changes nothing. A
        report that says connected has its last success at the last check. */
    function GetStatus(now: int): (r: StatusReport)
      requires Valid()
      reads this
      ensures r.connected == currentlyConnected && r.lastSuccess == lastSuccessTime
      ensures r.downtimeSeconds == Downtime(State(), now)
      ensures r.connected ==> r.lastSuccess == lastCheckTime
    {
      StatusReport(currentlyConnected, lastSuccessTime, Downtime(State(), now))
    }

    /** `stop()`: sets the flag; calling it again changes nothing. */
    method Stop()
      requires Valid()
      modifies this`stopFlag
      ensures Valid()
      ensures stopFlag
      ensures State() == AfterStop(old(State()))
    {
      stopFlag := true;
    }

    /**
     * `run()`: checks the stop flag before every cycle of probe, write and
     * sleep. `schedule` gives the environment of successive cycles; the loop
     * ends when the flag is set or the schedule is used up, or when
     * `time.sleep` raises on a negative or too large interval (`raised`),
     * which ends `run()` by exception after its first cycle without queueing
     * anything. Returns the points handed to the sink and the number of
     * cycles completed.
     */
    method Run(schedule: seq<CycleInput>) returns (points: seq<Point>, cycles: nat, raised: bool)
      requires Valid()
      modifies this`currentlyConnected, this`lastSuccessTime, this`lastCheckTime, this`exceptionQueue, this`stopFlag
      ensures Valid()
      ensures cycles == CyclesRun(old(stopFlag), WorkedSchedule(config.interval, schedule))
      ensures State() == RunState(old(State()), WorkedSchedule(config.interval, schedule))
      ensures points == RunPoints(config.targetHost, config.targetPort, old(stopFlag), WorkedSchedule(config.interval, schedule))
      ensures raised <==> SleepRaises(config.interval) && cycles > 0
    {
      ghost var work := WorkedSchedule(config.interval, schedule);
      points, cycles, raised := [], 0, false;
      while !stopFlag && cycles < |schedule|
        invariant Valid()
        invariant cycles <= |work| && !raised
        invariant SleepRaises(config.interval) ==> cycles == 0
        invariant RunState(State(), work[cycles..]) == RunState(old(State()), work)
        invariant points + RunPoints(config.targetHost, config.targetPort, stopFlag, work[cycles..]) ==
          RunPoints(config.targetHost, config.targetPort, old(stopFlag), work)
        invariant cycles + CyclesRun(stopFlag, work[cycles..]) == CyclesRun(old(stopFlag), work)
        decreases |schedule| - cycles
      {
        var input := schedule[cycles];
        assert work[cycles] == input;
        RunStep(State(), config.targetHost, config.targetPort, work, cycles, points);
        ghost var before := State();
        var latency, success := MeasureLatency(input.probe, input.now);
        var written := WriteMetrics(latency, success, input.write);
        points := points + written;
        if input.stopRequested {
          Stop();
        }
        assert State() == AfterCycle(before, input);
        cycles := cycles + 1;
        if SleepRaises(config.interval) {
          assert |work| == 1 && work[cycles..] == [];
          // time.sleep(self.INTERVAL) raises ValueError or OverflowError
          raised := true;
          break;
        }
      }
    }
  }

  /** `__init__`: validates the four InfluxDB settings in order and raises the
      `ValueError` naming the first empty one, or builds a fresh monitor. */
  method Create(config: Config, now: int) returns (r: Result<NetworkLatencyMonitor, ConfigError>)
    ensures r.Err? <==> CheckMandatory(config).Some?
    ensures r.Err? ==> CheckMandatory(config) == Some(r.error)
    ensures r.Ok? ==> (fresh(r.value) && r.value.Valid() && r.value.config == config &&
                       r.value.State() == Initial(now))
  {
    var check := CheckMandatory(config);
    if check.Some? {
      return Err(check.value);
    }
    var monitor := new NetworkLatencyMonitor(config, now);
    return Ok(monitor);
  }
}
