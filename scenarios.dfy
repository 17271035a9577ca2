/** Two end-to-end runs of the loop, worked through the general lemmas. */
module Scenarios {
  import opened Points
  import opened Connectivity
  import opened Health

  /** A target that always refuses, three cycles `interval` apart: three drop
      points, three queued exceptions, unhealthy and disconnected. */
  lemma AlwaysRefused(t0: int, interval: nat)
    ensures var refused := Failure("connection refused");
      var schedule := [CycleInput(refused, Accepted, t0 + interval, false),
                       CycleInput(refused, Accepted, t0 + 2 * interval, false),
                       CycleInput(refused, Accepted, t0 + 3 * interval, false)];
      var points := RunPoints("example.invalid", 9999, false, schedule);
      var t := RunState(Initial(t0), schedule);
      |points| == 3 && (forall j :: 0 <= j < 3 ==> points[j].measurement == DropsMeasurement) &&
      |t.faults| == 3 && !Healthy(t.faults) && !t.connected
  {
    var refused := Failure("connection refused");
    var schedule := [CycleInput(refused, Accepted, t0 + interval, false),
                     CycleInput(refused, Accepted, t0 + 2 * interval, false),
                     CycleInput(refused, Accepted, t0 + 3 * interval, false)];
    assert CyclesRun(false, schedule) == 3;
    RunPointsPerCycle("example.invalid", 9999, false, schedule);
    RunFaults(Initial(t0), schedule);
    assert schedule[..3] == schedule;
    assert Failures(schedule[2..]) == 1;
    assert Failures(schedule[1..]) == 2 by { assert schedule[1..][1..] == schedule[2..]; }
    assert Failures(schedule) == 3;
    RunLastCycle(Initial(t0), schedule);
  }

  /** Two successful cycles, then two refused ones: two latency points then two
      drop points, and a status taken after the fourth cycle reports the target
      disconnected for two intervals. */
  lemma OutageAfterTwoSuccesses(t0: int, interval: nat, ms: nat)
    ensures var refused := Failure("connection refused");
      var schedule := [CycleInput(Success(ms), Accepted, t0 + interval, false),
                       CycleInput(Success(ms), Accepted, t0 + 2 * interval, false),
                       CycleInput(refused, Accepted, t0 + 3 * interval, false),
                       CycleInput(refused, Accepted, t0 + 4 * interval, false)];
      var points := RunPoints("example.net", 443, false, schedule);
      var t := RunState(Initial(t0), schedule);
      |points| == 4 &&
      points[0].measurement == LatencyMeasurement && points[1].measurement == LatencyMeasurement &&
      points[2].measurement == DropsMeasurement && points[3].measurement == DropsMeasurement &&
      !t.connected && Downtime(t, t0 + 4 * interval) == 2 * interval
  {
    var refused := Failure("connection refused");
    var schedule := [CycleInput(Success(ms), Accepted, t0 + interval, false),
                     CycleInput(Success(ms), Accepted, t0 + 2 * interval, false),
                     CycleInput(refused, Accepted, t0 + 3 * interval, false),
                     CycleInput(refused, Accepted, t0 + 4 * interval, false)];
    assert CyclesRun(false, schedule) == 4;
    RunPointsPerCycle("example.net", 443, false, schedule);
    RunLastCycle(Initial(t0), schedule);
    RunLastSuccess(Initial(t0), schedule);
  }
}
