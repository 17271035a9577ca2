# net-mon: a Dafny model of the network latency monitor

net-mon probes a TCP endpoint (`TARGET_HOST:TARGET_PORT`) on a fixed interval.
It writes one InfluxDB point per probe and keeps a connectivity state that a
status endpoint reads. Every exception caught while probing or writing is put on
an exception queue. A health endpoint reports unhealthy as soon as that queue is
non-empty.

This project models the `NetworkLatencyMonitor` class of
`net_mon/network_latency_monitor.py` as a sequential state machine:

- `Settings`: the configuration and the construction-time check of the four
  InfluxDB settings. The check follows the order URL, token, org, bucket and
  raises `ValueError` with the name of the first empty setting.
- `Points`: the one point each cycle builds. A success gives `network_latency`
  with field `latency_ms`. A failure gives `connection_drops` with `drops = 1`.
  Both are tagged with `host` and `port`. `ReadPoint` is the reader's view of a
  point; it is proved to recover exactly what the monitor put in.
- `Decimal`: Python's `str()` of the port, and its inverse.
- `Connectivity`: the monitor's state as a value, and the functions for one
  probe, one write, `stop()`, one loop iteration and a whole run of the loop.
  The lemmas here cover the effect of each step, the downtime, how the queue
  grows, and where a run stops.
- `Monitor`: the class `NetworkLatencyMonitor`. Its fields are the ones the
  source mutates. Each method's postcondition ties the new state to the matching
  `Connectivity` function and spells out which fields change. `Create` is the
  whole of `__init__`, including the `ValueError` path.
- `Health`: the `/healthcheck` predicate of `net_mon/main.py` (healthy iff the
  queue is empty) and how it evolves over a run.
- `Scenarios`: two end-to-end runs: an always-refused target, and an outage
  after two successes.

Environment inputs:

- The clock is an integer `now`, given to each step.
- The TCP connect is an input outcome: `Success(latency)` or `Failure(cause)`.
- The sink's answer to a write is an input: `Accepted` or `Rejected(cause)`.
- A run of the loop takes a schedule, one `CycleInput` per iteration. Each entry
  holds the probe outcome, the write outcome, the clock, and whether another
  thread calls `stop()` during that iteration. If the flag is already set when
  `run()` starts, no iteration runs.

Only the four InfluxDB settings are validated. Host, port and interval are
never checked, so the model leaves them unchecked (`Settings.CheckIgnoresTarget`).
An unchecked negative interval makes `time.sleep` raise `ValueError`, and one
above 9223372036 seconds (too large for CPython's 64-bit nanosecond count) makes
it raise `OverflowError`. Either ends `run()` after the first cycle;
`Monitor.NetworkLatencyMonitor.Run` models that exit (`Connectivity.WorkedSchedule`).

The source puts the bare exception object on the queue. The model tags each
entry `ProbeFault` or `WriteFault` by the step that caught it.

## Model

| member | source | states |
|---|---|---|
| `Monitor.Create` | net_mon/network_latency_monitor.py:19-57 | Construction raises exactly when a mandatory setting is empty, with the error `CheckMandatory` gives. Otherwise it returns a fresh, valid monitor in the initial state at the construction time. |
| `Monitor.NetworkLatencyMonitor.constructor` | net_mon/network_latency_monitor.py:27-57 | A new monitor keeps its configuration. It starts connected, with last success and last check at the construction time, an empty exception queue and the stop flag unset. |
| `Connectivity.Initial` | net_mon/network_latency_monitor.py:49-57 | The state of a new monitor is connected, with both times at the construction time, an empty queue and the flag unset. It is ordered. |
| `Connectivity.AfterProbe` | net_mon/network_latency_monitor.py:92-103 | A success sets connected and both times to `now`. A failure clears connected, sets the last check to `now` and appends one probe exception. Either way the result is coherent, the last check is `now`, and the flag is untouched. |
| `Connectivity.ProbeResult` | net_mon/network_latency_monitor.py:97-103 | Success is reported iff the probe succeeded. A latency comes back exactly then, and it is the probe's latency. |
| `Connectivity.AfterWrite` | net_mon/network_latency_monitor.py:123-132 | A write touches only the queue. The old queue is a prefix of the new one, which is one longer exactly when the sink rejected the write. |
| `Connectivity.AfterStop` | net_mon/network_latency_monitor.py:144-145 | The flag is set and nothing else changes. |
| `Connectivity.Downtime` | net_mon/network_latency_monitor.py:137 | Defined as 0 when connected, otherwise the read time minus the last success time. |
| `Connectivity.AfterCycle` | net_mon/network_latency_monitor.py:151-154 | One loop body: probe, then write, then a `stop()` from another thread if one came. Afterwards `connected` reflects this probe and the last check is its time. The flag is set iff it was or a stop came. The queue grows by exactly this cycle's failures. |
| `Connectivity.CyclePoint` | net_mon/network_latency_monitor.py:152-153 | The point of one cycle is the `MetricPoint` of its probe result, a `network_latency` point iff the probe succeeded. |
| `Connectivity.RunState` | net_mon/network_latency_monitor.py:151-154 | Defined as repeating `AfterCycle` over the schedule while the flag is unset. |
| `Connectivity.RunPoints` | net_mon/network_latency_monitor.py:151-154 | Defined as the cycle points of the cycles the loop runs, in order. |
| `Connectivity.SleepRaises` | net_mon/network_latency_monitor.py:154 | Defined as an interval that is negative (`ValueError`) or above 9223372036 seconds, the largest whole number of seconds that fits CPython's signed 64-bit nanosecond count (`OverflowError`). |
| `Connectivity.WorkedSchedule` | net_mon/network_latency_monitor.py:154 | When `time.sleep` accepts the interval, the whole schedule. When it raises (negative, or above 9223372036 s), exactly the first cycle, if there is one. It is always a prefix of the schedule. |
| `Connectivity.Failures` | net_mon/network_latency_monitor.py:98-132 | Defined as the number of failed probes plus rejected writes over a sequence of cycles. |
| `Decimal.IntToString` | net_mon/network_latency_monitor.py:113 | Python's `str()` of an int is non-empty and starts with `-` exactly for negative values. |
| `Health.Healthy` | net_mon/main.py:51 | Defined as an empty exception queue. |
| `Settings.CheckMandatory` | net_mon/network_latency_monitor.py:72-84 | No error iff URL, token, org and bucket are all non-empty. Otherwise the error is `ValueError(name)` for the first empty setting in that order, and every earlier setting is set. |
| `Settings.CheckIgnoresTarget` | net_mon/network_latency_monitor.py:72-84 | Host, port and interval have no effect on validation. |
| `Monitor.NetworkLatencyMonitor.MeasureLatency` | net_mon/network_latency_monitor.py:86-103 | On success: connected, last success and last check set to `now`, queue unchanged, returns `(Some(latency), true)`. On failure: disconnected, last check set to `now`, last success unchanged, exactly one exception queued, returns `(None, false)`. The stop flag is never touched, and the new state equals `AfterProbe`. |
| `Connectivity.ProbeEffect` | net_mon/network_latency_monitor.py:92-103 | Field by field, which parts of the state a successful or failed probe changes and which stay the same. |
| `Connectivity.ProbeKeepsOrdered` | net_mon/network_latency_monitor.py:92-101 | With a clock that does not go backwards, a probe keeps last success no later than last check, and never moves last check back. |
| `Connectivity.DowntimeAfterProbe` | net_mon/network_latency_monitor.py:134-142 | Downtime measured after a success is 0. After a failure it is the later time minus the last success from before the failure. |
| `Connectivity.DowntimeNonNegative` | net_mon/network_latency_monitor.py:137 | In an ordered state, read no earlier than the last check, downtime is at least 0. When disconnected, it is at least the time since the last check. |
| `Monitor.NetworkLatencyMonitor.WriteMetrics` | net_mon/network_latency_monitor.py:105-132 | Hands the sink exactly one point, the `MetricPoint` for the configured host and port. A rejected write queues exactly one exception and returns normally. An accepted write leaves the queue unchanged. |
| `Points.MetricPoint` | net_mon/network_latency_monitor.py:107-122 | Tags are `host` then `port` as `str(port)`. The measurement is `network_latency` iff success, otherwise `connection_drops`. On success the only field is `latency_ms` holding the latency; otherwise it is `drops = 1`. |
| `Points.MetricPointReadBack` | net_mon/network_latency_monitor.py:110-122 | A reader of any point the monitor writes recovers the host, the port and exactly the probe's latency (none for a drop). |
| `Decimal.NatToString` | net_mon/network_latency_monitor.py:113 | The text is non-empty and all digits. Its first digit is `0` only for zero, and it is one digit exactly for values below ten. |
| `Decimal.IntToStringRoundTrip` | net_mon/network_latency_monitor.py:113 | Parsing the port tag gives back the port. |
| `Decimal.IntToStringInjective` | net_mon/network_latency_monitor.py:113 | Distinct ports give distinct port tags. |
| `Monitor.NetworkLatencyMonitor.GetStatus` | net_mon/network_latency_monitor.py:134-142 | Reports `connected` and last success as stored, and the downtime `Downtime` gives for the state at `now` (0 when connected, `now - last_success_time` otherwise). A report that says connected has its last success at the last check. Nothing is modified (it is a function). |
| `Monitor.NetworkLatencyMonitor.Stop` | net_mon/network_latency_monitor.py:144-145 | Sets the stop flag and changes nothing else. |
| `Connectivity.StopIdempotent` | net_mon/network_latency_monitor.py:144-145 | Stopping twice is the same as stopping once. |
| `Monitor.NetworkLatencyMonitor.Run` | net_mon/network_latency_monitor.py:147-154 | The loop checks the flag before every cycle. Over the part of the schedule it can reach (`WorkedSchedule`), it completes `CyclesRun` cycles, ends in `RunState` and hands the sink `RunPoints`. It ends by the exception of `time.sleep` exactly when the interval is negative or above 9223372036 s and a cycle ran. |
| `Connectivity.CyclesRun` | net_mon/network_latency_monitor.py:151-154 | With the flag already set, zero cycles. Otherwise, every cycle up to and including the first one during which `stop()` is called, and no `stop()` before that one. It never exceeds the schedule. |
| `Connectivity.RunAfterStop` | net_mon/network_latency_monitor.py:151-154 | Once the flag is set, a run changes no state and writes no point. |
| `Connectivity.StopEndsRun` | net_mon/network_latency_monitor.py:151-154 | A `stop()` during cycle `j` means no cycle after `j` runs. If no earlier cycle was stopped, cycle `j` itself still completes: exactly `j + 1` cycles run. |
| `Connectivity.RunPointsPerCycle` | net_mon/network_latency_monitor.py:151-154 | Exactly one point per completed cycle, and point `j` is cycle `j`'s point. |
| `Connectivity.RunFaults` | net_mon/network_latency_monitor.py:98-132 | Over a run, the old queue is a prefix of the new one. It grows by exactly the failed probes plus rejected writes of the completed cycles. |
| `Connectivity.RunLastCycle` | net_mon/network_latency_monitor.py:147-154 | After a run, `connected` and the last check reflect the last completed cycle (no cycle: nothing changed). The flag is set iff it already was or `stop()` came in the last cycle. The loop stops short of the end of the schedule it is given only through the flag. |
| `Connectivity.RunLastSuccess` | net_mon/network_latency_monitor.py:92-101 | After a run, last success is the clock of the last successful completed cycle. If every completed cycle failed, it is unchanged. |
| `Connectivity.RunKeepsCoherent` | net_mon/network_latency_monitor.py:92-101 | Every state a run reaches from a coherent state is coherent. |
| `Connectivity.RunKeepsOrdered` | net_mon/network_latency_monitor.py:92-101 | With a non-decreasing clock, a run keeps the state ordered, so later downtime is not negative, and the last check never goes back. |
| `Health.Healthcheck` | net_mon/main.py:47-54 | `/healthcheck` answers 200 iff the queue is empty, and 500 otherwise. |
| `Health.HealthyAfterRun` | net_mon/main.py:51-54 | After a run the monitor is healthy iff it was before and no completed cycle had a failed probe or a rejected write. |
| `Health.UnhealthyStays` | net_mon/main.py:51-54 | Once unhealthy, a monitor stays unhealthy through any run. |
| `Scenarios.AlwaysRefused` | net_mon/network_latency_monitor.py:147-154 | Three refused cycles give three `connection_drops` points, three queued exceptions, an unhealthy monitor and `connected = false`. |
| `Scenarios.OutageAfterTwoSuccesses` | net_mon/network_latency_monitor.py:147-154 | Two successes then two refusals give two `network_latency` points then two `connection_drops` points. Status after cycle four is disconnected with downtime of two intervals. |

## Left out

- The TCP connect and its timing (`socket.create_connection`, `time.time()` differences): network I/O and floating point. The probe is an input outcome. The latency is a natural number of milliseconds, not a float.
- Monitor.NetworkLatencyMonitor.MeasureLatency: only the exceptions the source catches (timeout, socket error, `NewConnectionError`) are modelled as `Failure`. Any other exception would escape `run()` and end the worker thread; that path is not modelled.
- Monitor.NetworkLatencyMonitor.MeasureLatency: the source reads the clock separately for `last_success_time` and `last_check_time`, and `__init__` does the same. The model uses one `now` per step, so the two are equal where the source may differ by microseconds.
- The InfluxDB client, `write_api` and the `Point` builder: a foreign library. A point is a datatype, and the sink is an accept/reject input. Bucket and org are passed to the sink unchanged and are not modelled.
- Monitor.NetworkLatencyMonitor.Run: when `time.sleep` raises, the model reports it as `raised` and nothing is queued, as in the source. The death of the worker thread that follows is not modelled.
- `threading.Lock`, `threading.Event`, and concurrent readers of `get_status`: concurrency. Every update is an atomic sequential step. The stop flag is a boolean field. Calls to `stop()` from another thread appear as a per-cycle flag in the schedule.
- Monitor.NetworkLatencyMonitor.Run: the source loop runs until it is stopped or `time.sleep` raises on a negative or too large interval. The model also ends when the schedule runs out. `time.sleep(self.INTERVAL)` is not modelled; the interval shows up only through the clock values in the schedule.
- Monitor.NetworkLatencyMonitor.GetStatus: `last_success` is the raw clock value, not the `strftime` ISO-8601 text. `downtime_seconds` is the integer difference, not `round(downtime, 1)`: library formatting and float rounding.
- `from_env` and `load_dotenv`: environment reading and `int()` parsing. An unset variable shows up as an empty setting.
- Logging calls.
- The rest of `net_mon/main.py`: FastAPI routes other than the health predicate, the lifespan with thread start and join, and `JsonFormatter`. These are web and logging plumbing.
- `tests/test_network_latency_monitor.py`: a container-based integration test with no logic of its own.
