/**
 * The xApp's own configuration resource: the KPM reporting interval (a
 * KpmPeriod index) and the InfluxDB URL. There is exactly one; it can be
 * updated but never created.
 */
module AppConfigs {
  import opened CLib
  import opened Json
  import opened RestServer
  import opened Resource
  import E2smKpm

  const NOT_FOUND: int := 404
  const UNAUTHORIZED: int := 401
  const SINGLETON: string := "cannot create multiple xApp Config objects; singleton"
  const INDEX_RANGE: string := "kpm_interval_index must be between 0 (10ms) and 19 (10240ms)"

  const APP_CONFIG_SCHEMA: Schema := Schema(
    map["kpm_interval_index" := INT, "influxdb_url" := STRING],
    [],
    map[PUT := ["kpm_interval_index"]],
    map[PUT := ["influxdb_url"]],
    map[],
    false)

  /** The valid interval indices: MS10 (0) to MS10240 (19). */
  predicate IndexInRange(i: int)
  {
    0 <= i <= 19
  }

  /** A conforming PUT body carries an int32 "kpm_interval_index" and a string "influxdb_url" if any. */
  lemma ConformingPutIsTyped(obj: map<string, Value>)
    requires Conforms(APP_CONFIG_SCHEMA, PUT, obj)
    ensures "kpm_interval_index" in obj && IsInt(obj["kpm_interval_index"])
    ensures "influxdb_url" in obj ==> obj["influxdb_url"].Str?
  {
    assert "kpm_interval_index" in Listed(APP_CONFIG_SCHEMA.required, PUT);
    assert "influxdb_url" in Listed(APP_CONFIG_SCHEMA.optional, PUT);
  }

  class AppConfig {
    var kpmIntervalIndex: int
    var influxdbUrl: string
    const name: string

    /** The URL is always a C string: it is only ever set from one. */
    predicate Valid()
      reads this
    {
      NoNul(influxdbUrl)
    }

    /** The interval defaults to MS5120, the URL to empty. */
    constructor ()
      ensures Valid()
      ensures kpmIntervalIndex == E2smKpm.PeriodIndex(E2smKpm.MS5120) && influxdbUrl == "" && name == "appconfig"
    {
      kpmIntervalIndex := E2smKpm.PeriodIndex(E2smKpm.MS5120);
      influxdbUrl := "";
      name := "appconfig";
    }

    /**
     * The REST update. A non-object or non-conforming body is rejected
     * with 400. An index outside 0..19 is rejected with 401 when there is
     * a sink to report it to; with no sink it is stored anyway. An
     * accepted body stores the index and replaces the URL when one is sent.
     */
    method Update(d: Value, ae: ErrorSlot?) returns (ok: bool)
      requires Valid()
      modifies this`kpmIntervalIndex, this`influxdbUrl, Sink(ae)
      ensures Valid()
      ensures !d.Object? ==>
        !ok && kpmIntervalIndex == old(kpmIntervalIndex) && influxdbUrl == old(influxdbUrl) &&
        Appended(ae, BAD_REQUEST, [NOT_AN_OBJECT])
      ensures d.Object? && !Conforms(APP_CONFIG_SCHEMA, PUT, d.members) ==>
        !ok && kpmIntervalIndex == old(kpmIntervalIndex) && influxdbUrl == old(influxdbUrl) &&
        Appended(ae, BAD_REQUEST, Reported(APP_CONFIG_SCHEMA, PUT, d.members)) && Reported(APP_CONFIG_SCHEMA, PUT, d.members) != []
      ensures d.Object? && Conforms(APP_CONFIG_SCHEMA, PUT, d.members) ==>
        var obj := d.members;
        "kpm_interval_index" in obj && obj["kpm_interval_index"].Int? &&
        if !IndexInRange(obj["kpm_interval_index"].n) && ae != null then
          !ok && kpmIntervalIndex == old(kpmIntervalIndex) && influxdbUrl == old(influxdbUrl) &&
          Appended(ae, UNAUTHORIZED, [INDEX_RANGE])
        else
          ok && Appended(ae, BAD_REQUEST, []) &&
          kpmIntervalIndex == obj["kpm_interval_index"].n &&
          influxdbUrl == if "influxdb_url" in obj then CStr(obj["influxdb_url"].s) else old(influxdbUrl)
    {
      if !d.Object? {
        Report(ae, BAD_REQUEST, NOT_AN_OBJECT);
        return false;
      }
      var obj := d.members;
      AcceptsIffConforms(APP_CONFIG_SCHEMA, PUT, obj);
      var valid := ValidateJson(APP_CONFIG_SCHEMA, PUT, d, ae);
      if !valid {
        return false;
      }
      ConformingPutIsTyped(obj);
      var index := obj["kpm_interval_index"].n;
      if index < 0 || index > 19 {
        if ae != null {
          Report(ae, UNAUTHORIZED, INDEX_RANGE);
          return false;
        }
      }
      kpmIntervalIndex := index;
      CStrOfNoNul(influxdbUrl);
      if "influxdb_url" in obj && GetString(obj["influxdb_url"]) != CStr(influxdbUrl) {
        influxdbUrl := GetString(obj["influxdb_url"]);
      }
      return true;
    }
  }

  /**
   * AppConfig::create: never makes an object. The sink is overwritten
   * with a new 404 error carrying the singleton message, whatever it held.
   */
  method Create(d: Value, ae: ErrorSlot) returns (c: AppConfig?)
    modifies ae
    ensures c == null
    ensures ae.err != null && fresh(ae.err) && ae.err.httpStatus == NOT_FOUND && ae.err.messages == [SINGLETON]
  {
    ae.err := new RequestError.WithMessage(NOT_FOUND, SINGLETON);
    return null;
  }
}
