/**
 * The monitor's configuration and the construction-time validation of the
 * four InfluxDB settings (`_check_mandatory_env_vars`).
 */
module Settings {
  import opened Wrappers

  /**
   * The seven constructor arguments of the monitor. A setting that the
   * environment leaves unset is the empty string here: Python's `not`
   * treats `None` and `""` alike.
   */
  datatype Config = Config(
    influxdbUrl: string,
    influxdbToken: string,
    influxdbOrg: string,
    influxdbBucket: string,
    targetHost: string,
    targetPort: int,
    interval: int)

  /** The settings that construction refuses to leave empty. */
  datatype Setting = InfluxdbUrl | InfluxdbToken | InfluxdbOrg | InfluxdbBucket

  /** The `ValueError` raised by construction, carrying the setting's name. */
  datatype ConfigError = ValueError(message: string)

  /** The order in which the settings are checked. */
  const MandatoryOrder: seq<Setting> := [InfluxdbUrl, InfluxdbToken, InfluxdbOrg, InfluxdbBucket]

  function Name(s: Setting): string {
    match s
    case InfluxdbUrl => "INFLUXDB_URL"
    case InfluxdbToken => "INFLUXDB_TOKEN"
    case InfluxdbOrg => "INFLUXDB_ORG"
    case InfluxdbBucket => "INFLUXDB_BUCKET"
  }

  function ValueOf(c: Config, s: Setting): string {
    match s
    case InfluxdbUrl => c.influxdbUrl
    case InfluxdbToken => c.influxdbToken
    case InfluxdbOrg => c.influxdbOrg
    case InfluxdbBucket => c.influxdbBucket
  }

  /** Python truthiness of a string setting. */
  predicate IsSet(c: Config, s: Setting) {
    ValueOf(c, s) != ""
  }

  /**
   * The error construction raises, if any: `None` exactly when all four
   * settings are set, otherwise the `ValueError` naming the first empty one
   * in `MandatoryOrder`. Host, port and interval are not looked at.
   */
  function CheckMandatory(c: Config): (r: Option<ConfigError>)
    ensures r.None? <==> forall i :: 0 <= i < |MandatoryOrder| ==> IsSet(c, MandatoryOrder[i])
    ensures r.Some? ==>
      exists i :: 0 <= i < |MandatoryOrder| && !IsSet(c, MandatoryOrder[i]) &&
        r.value == ValueError(Name(MandatoryOrder[i])) &&
        forall j :: 0 <= j < i ==> IsSet(c, MandatoryOrder[j])
  {
    if c.influxdbUrl == "" then
      assert !IsSet(c, MandatoryOrder[0]);
      Some(ValueError("INFLUXDB_URL"))
    else if c.influxdbToken == "" then
      assert !IsSet(c, MandatoryOrder[1]);
      Some(ValueError("INFLUXDB_TOKEN"))
    else if c.influxdbOrg == "" then
      assert !IsSet(c, MandatoryOrder[2]);
      Some(ValueError("INFLUXDB_ORG"))
    else if c.influxdbBucket == "" then
      assert !IsSet(c, MandatoryOrder[3]);
      Some(ValueError("INFLUXDB_BUCKET"))
    else
      None
  }

  /** Validation depends on the four InfluxDB settings only. */
  lemma CheckIgnoresTarget(c: Config, host: string, port: int, interval: int)
    ensures CheckMandatory(c.(targetHost := host, targetPort := port, interval := interval)) == CheckMandatory(c)
  {
  }
}
