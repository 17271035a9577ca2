/**
 * The liveness view the web layer offers over the monitor: healthy exactly
 * while the exception queue is empty.
 */
module Health {
  import opened Connectivity
  import opened Monitor

  predicate Healthy(faults: seq<Fault>) {
    faults == []
  }

  /** The status code `/healthcheck` answers with. */
  function Healthcheck(monitor: NetworkLatencyMonitor): (code: nat)
    reads monitor
    ensures code == 200 || code == 500
    ensures code == 200 <==> monitor.exceptionQueue == []
  {
    if Healthy(monitor.exceptionQueue) then 200 else 500
  }

  /** A run leaves a healthy monitor healthy exactly when none of its completed
      cycles had a failed probe or a rejected write. */
  lemma HealthyAfterRun(s: MonitorState, schedule: seq<CycleInput>)
    ensures Healthy(RunState(s, schedule).faults) <==>
      Healthy(s.faults) && Failures(schedule[..CyclesRun(s.stopped, schedule)]) == 0
  {
    RunFaults(s, schedule);
  }

  /** Nothing in the core clears the queue: once unhealthy, always unhealthy. */
  lemma UnhealthyStays(s: MonitorState, schedule: seq<CycleInput>)
    requires !Healthy(s.faults)
    ensures !Healthy(RunState(s, schedule).faults)
  {
    RunFaults(s, schedule);
  }
}
