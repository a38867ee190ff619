/**
  Telemetry records built from the flattened result pairs
  (`convert_kvps_to_measurement1d`). The clock is read once by the caller and
  passed in as `currentTime`, the ISO text `datetime.now().isoformat()` gives.
 */
module ModelHelper {
  import opened ObjHelper

  /** The dict built for one pair: `device_id`, `series_id`, `value`, `time`, `notes`, `by`, `app`. */
  datatype Measurement1D = Measurement1D(
    deviceId: string, seriesId: string, value: Scalar, time: string, notes: string, performedBy: string, app: string)

  /** The record for one pair: the series id is the prefix followed by the key. */
  function MeasurementOf(kv: KeyValue, keyPrefix: string, deviceId: string, app: string, currentTime: string): (r: Measurement1D)
    ensures |keyPrefix| <= |r.seriesId| && r.seriesId[..|keyPrefix|] == keyPrefix && r.seriesId[|keyPrefix|..] == kv.key
    ensures r.value == kv.value && r.time == currentTime && r.deviceId == deviceId && r.app == app
  {
    Measurement1D(deviceId, keyPrefix + kv.key, kv.value, currentTime, "", "", app)
  }

  /** The pairs a list of records was made from, taking the prefix off each series id. */
  function PairsOf(ms: seq<Measurement1D>, keyPrefix: string): (r: seq<KeyValue>)
    requires forall i :: 0 <= i < |ms| ==> |keyPrefix| <= |ms[i].seriesId|
    ensures |r| == |ms|
  {
    if ms == [] then [] else [KeyValue(ms[0].seriesId[|keyPrefix|..], ms[0].value)] + PairsOf(ms[1..], keyPrefix)
  }

  /** `convert_kvps_to_measurement1d`: one record per pair, in order, all sharing one time. */
  method ConvertKvpsToMeasurement1d(keyValuePairs: seq<KeyValue>, keyPrefix: string, deviceId: string, app: string, currentTime: string)
    returns (measurements: seq<Measurement1D>)
    ensures |measurements| == |keyValuePairs|
    ensures forall i :: 0 <= i < |keyValuePairs| ==>
      measurements[i] == MeasurementOf(keyValuePairs[i], keyPrefix, deviceId, app, currentTime)
    ensures forall i :: 0 <= i < |measurements| ==>
      measurements[i].time == currentTime && measurements[i].notes == "" && measurements[i].performedBy == ""
      && measurements[i].deviceId == deviceId && measurements[i].app == app
      && measurements[i].value == keyValuePairs[i].value
      && measurements[i].seriesId == keyPrefix + keyValuePairs[i].key
  {
    measurements := [];
    var i := 0;
    while i < |keyValuePairs|
      invariant 0 <= i <= |keyValuePairs|
      invariant |measurements| == i
      invariant forall j :: 0 <= j < i ==> measurements[j] == MeasurementOf(keyValuePairs[j], keyPrefix, deviceId, app, currentTime)
    {
      var pair := keyValuePairs[i];
      var measurement := Measurement1D(deviceId, keyPrefix + pair.key, pair.value, currentTime, "", "", app);
      measurements := measurements + [measurement];
      i := i + 1;
    }
  }

  /** The records give back the pairs they were made from, keys and values in order. */
  lemma {:induction false} PairsOfMeasurements(kvps: seq<KeyValue>, ms: seq<Measurement1D>, keyPrefix: string, deviceId: string, app: string, currentTime: string)
    requires |ms| == |kvps|
    requires forall i :: 0 <= i < |kvps| ==> ms[i] == MeasurementOf(kvps[i], keyPrefix, deviceId, app, currentTime)
    ensures forall i :: 0 <= i < |ms| ==> |keyPrefix| <= |ms[i].seriesId|
    ensures PairsOf(ms, keyPrefix) == kvps
  {
    assert forall i :: 0 <= i < |ms| ==> ms[i].seriesId == keyPrefix + kvps[i].key;
    if kvps != [] {
      PairsOfMeasurements(kvps[1..], ms[1..], keyPrefix, deviceId, app, currentTime);
      assert (keyPrefix + kvps[0].key)[|keyPrefix|..] == kvps[0].key;
    }
  }
}
