/**
 * The metric point built by `_write_metrics` for one cycle, and how a
 * reader of the metrics database interprets it.
 */
module Points {
  import opened Wrappers
  import opened Decimal

  /** A field value: the latency in milliseconds, or an integer count. */
  datatype FieldValue = LatencyValue(ms: nat) | IntValue(n: int)

  /** One InfluxDB point: measurement name, tags in order, fields in order. */
  datatype Point = Point(measurement: string, tags: seq<(string, string)>, fields: seq<(string, FieldValue)>)

  const LatencyMeasurement: string := "network_latency"
  const DropsMeasurement: string := "connection_drops"

  /** The point of one cycle: a latency sample when the probe succeeded, a drop otherwise. */
  function MetricPoint(host: string, port: int, latency: Option<nat>, success: bool): (p: Point)
    requires success ==> latency.Some?
    ensures p.tags == [("host", host), ("port", IntToString(port))]
    ensures p.measurement == LatencyMeasurement <==> success
    ensures p.measurement == DropsMeasurement <==> !success
    ensures success ==> p.fields == [("latency_ms", LatencyValue(latency.value))]
    ensures !success ==> p.fields == [("drops", IntValue(1))]
  {
    var tags := [("host", host), ("port", IntToString(port))];
    if success then Point("network_latency", tags, [("latency_ms", LatencyValue(latency.value))])
    else Point("connection_drops", tags, [("drops", IntValue(1))])
  }

  /** What a reader of the database learns from a point: the target and the latency, if any. */
  datatype Reading = Reading(host: string, port: int, latency: Option<nat>)

  function ReadPoint(p: Point): Option<Reading> {
    if |p.tags| != 2 || p.tags[0].0 != "host" || p.tags[1].0 != "port" || |p.fields| != 1 then None
    else
      match ParseInt(p.tags[1].1)
      case None => None
      case Some(port) =>
        if p.measurement == LatencyMeasurement && p.fields[0].0 == "latency_ms" && p.fields[0].1.LatencyValue? then
          Some(Reading(p.tags[0].1, port, Some(p.fields[0].1.ms)))
        else if p.measurement == DropsMeasurement && p.fields[0] == ("drops", IntValue(1)) then
          Some(Reading(p.tags[0].1, port, None))
        else None
  }

  /** Every point the monitor writes names its target and carries exactly the probe's outcome. */
  lemma MetricPointReadBack(host: string, port: int, latency: Option<nat>, success: bool)
    requires success ==> latency.Some?
    ensures ReadPoint(MetricPoint(host, port, latency, success)) == Some(Reading(host, port, if success then latency else None))
  {
    IntToStringRoundTrip(port);
  }
}
