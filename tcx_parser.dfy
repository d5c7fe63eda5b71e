/**
 * Lap and trackpoint extraction from a TCX document that ElementTree has
 * already parsed. The document is given as what the source's `find` and
 * `findall` calls return: the first Activity element, every Lap element and
 * every Trackpoint element, each in document order.
 */
module TcxParser {
  import opened Wrappers
  import opened Text
  import opened JsonValue

  /** The outcome of `element.find(path)`: no such child, or a child with its (possibly absent) text. */
  datatype Child = Missing | Found(text: Option<string>)

  datatype ActivityElement = ActivityElement(sport: Option<string>, id: Child)

  datatype LapElement = LapElement(
    startTime: Option<string>,    // the StartTime attribute
    totalTimeSeconds: Child,
    distanceMeters: Child,
    maximumSpeed: Child,
    calories: Child,
    averageHeartRate: Child,      // AverageHeartRateBpm/Value
    maximumHeartRate: Child,      // MaximumHeartRateBpm/Value
    intensity: Child,
    triggerMethod: Child)

  datatype PositionElement = PositionElement(latitude: Child, longitude: Child)

  datatype TrackpointElement = TrackpointElement(
    time: Child,
    position: Option<PositionElement>,
    altitude: Child,
    distance: Child,
    heartRate: Child,             // HeartRateBpm/Value
    speed: Child)                 // Extensions/Speed, looked up without a namespace

  datatype TcxDocument = TcxDocument(
    activity: Option<ActivityElement>,
    laps: seq<LapElement>,
    trackpoints: seq<TrackpointElement>)

  /** What `parse_tcx` returns. */
  datatype TcxData = TcxData(
    activityType: Option<string>,
    activityId: Option<string>,
    laps: seq<map<string, Json>>,
    trackpoints: seq<map<string, Json>>)

  /** Line 115: the most trackpoints one document contributes. */
  const MaxTrackpoints: nat := 10000

  /** `_get_text`: the child's text, None when the child is missing. */
  function GetText(c: Child): Option<string> {
    if c.Found? then c.text else None
  }

  /** `_get_float`: None, never an exception, for a missing child, a missing text or unparsable text. */
  function GetFloat(c: Child): (r: Option<real>)
    ensures r.Some? <==> c.Found? && c.text.Some? && ParseDecimal(c.text.value).Some?
    ensures r.Some? ==> r == ParseDecimal(c.text.value)
  {
    match GetText(c)
    case None => None
    case Some(text) => ParseDecimal(text)
  }

  /** `_get_int`: `int(float(text))`, the float truncated toward zero; None where `_get_float` is None. */
  function GetInt(c: Child): (r: Option<int>)
    ensures r.Some? <==> GetFloat(c).Some?
    ensures r.Some? ==> var x := GetFloat(c).value;
      (x >= 0.0 ==> 0 <= r.value && r.value as real <= x < r.value as real + 1.0)
      && (x < 0.0 ==> r.value <= 0 && r.value as real - 1.0 < x <= r.value as real)
  {
    match GetText(c)
    case None => None
    case Some(text) =>
      match ParseDecimal(text)
      case None => None
      case Some(x) => Some(Truncate(x))
  }

  function RealField(x: Option<real>): Option<Json> {
    if x.Some? then Some(JReal(x.value)) else None
  }

  function IntField(n: Option<int>): Option<Json> {
    if n.Some? then Some(JInt(n.value)) else None
  }

  function TextField(t: Option<string>): Option<Json> {
    if t.Some? then Some(JStr(t.value)) else None
  }

  /** A dict comprehension that keeps the entries whose value is not None. */
  function Compact(entries: seq<(string, Option<Json>)>): map<string, Json>
    decreases |entries|
  {
    if |entries| == 0 then map[]
    else
      var prev := Compact(entries[..|entries| - 1]);
      var (key, value) := entries[|entries| - 1];
      if value.Some? then prev[key := value.value] else prev
  }

  predicate DistinctKeys(entries: seq<(string, Option<Json>)>) {
    forall i, j :: 0 <= i < j < |entries| ==> entries[i].0 != entries[j].0
  }

  /** With distinct keys, the compacted dict holds exactly the entries whose value is present, with that value. */
  lemma {:induction false} CompactHolds(entries: seq<(string, Option<Json>)>, i: nat)
    requires DistinctKeys(entries) && i < |entries|
    ensures entries[i].1.Some? ==> entries[i].0 in Compact(entries) && Compact(entries)[entries[i].0] == entries[i].1.value
    ensures entries[i].1.None? ==> entries[i].0 !in Compact(entries)
    decreases |entries|
  {
    var n := |entries| - 1;
    var init := entries[..n];
    if i < n {
      assert init[i] == entries[i];
      assert DistinctKeys(init) by {
        forall a, b | 0 <= a < b < |init| ensures init[a].0 != init[b].0 {
          assert init[a] == entries[a] && init[b] == entries[b];
        }
      }
      CompactHolds(init, i);
      assert entries[n].0 != entries[i].0;
    } else {
      forall a | 0 <= a < |init| ensures init[a].0 != entries[n].0 {
        assert init[a] == entries[a];
      }
      CompactAbsent(init, entries[n].0);
    }
  }

  /** A key no entry carries is not in the compacted dict. */
  lemma {:induction false} CompactAbsent(entries: seq<(string, Option<Json>)>, key: string)
    requires forall i :: 0 <= i < |entries| ==> entries[i].0 != key
    ensures key !in Compact(entries)
    decreases |entries|
  {
    if |entries| > 0 {
      var init := entries[..|entries| - 1];
      forall a | 0 <= a < |init| ensures init[a].0 != key { assert init[a] == entries[a]; }
      CompactAbsent(init, key);
    }
  }

  /** Every key of a compacted dict is one of the entry keys. */
  lemma {:induction false} CompactKeysFrom(entries: seq<(string, Option<Json>)>, key: string)
    requires key in Compact(entries)
    ensures exists i :: 0 <= i < |entries| && entries[i].0 == key && entries[i].1.Some?
    decreases |entries|
  {
    var n := |entries| - 1;
    var (k, v) := entries[n];
    if !(v.Some? && k == key) {
      CompactKeysFrom(entries[..n], key);
      var i :| 0 <= i < n && entries[..n][i].0 == key && entries[..n][i].1.Some?;
      assert entries[i] == entries[..n][i];
    }
  }

  /** A compacted dict never holds null when no entry value is null. */
  lemma {:induction false} CompactHasNoNull(entries: seq<(string, Option<Json>)>)
    requires forall i :: 0 <= i < |entries| ==> entries[i].1 != Some(JNull)
    ensures forall k :: k in Compact(entries) ==> Compact(entries)[k] != JNull
    decreases |entries|
  {
    if |entries| > 0 {
      var init := entries[..|entries| - 1];
      forall i | 0 <= i < |init| ensures init[i].1 != Some(JNull) { assert init[i] == entries[i]; }
      CompactHasNoNull(init);
    }
  }

  /** The nine candidate fields of a lap record, in the order the source lists them. */
  function LapFields(lap: LapElement): seq<(string, Option<Json>)> {
    [ ("start_time", TextField(lap.startTime)),
      ("total_time_seconds", RealField(GetFloat(lap.totalTimeSeconds))),
      ("distance_meters", RealField(GetFloat(lap.distanceMeters))),
      ("max_speed", RealField(GetFloat(lap.maximumSpeed))),
      ("calories", IntField(GetInt(lap.calories))),
      ("avg_hr", IntField(GetInt(lap.averageHeartRate))),
      ("max_hr", IntField(GetInt(lap.maximumHeartRate))),
      ("intensity", TextField(GetText(lap.intensity))),
      ("trigger_method", TextField(GetText(lap.triggerMethod))) ]
  }

  const LapKeys: set<string> := {"start_time", "total_time_seconds", "distance_meters", "max_speed",
    "calories", "avg_hr", "max_hr", "intensity", "trigger_method"}

  /** Lines 97-110: the lap's fields with the None values removed. */
  function LapRecord(lap: LapElement): map<string, Json> {
    Compact(LapFields(lap))
  }

  /**
   * A lap record holds exactly the candidate fields whose value exists, under
   * the nine fixed keys, and never a null.
   */
  lemma LapRecordShape(lap: LapElement)
    ensures LapRecord(lap).Keys <= LapKeys
    ensures forall k :: k in LapRecord(lap) ==> LapRecord(lap)[k] != JNull
    ensures forall i :: 0 <= i < 9 ==>
      (LapFields(lap)[i].1.Some? <==> LapFields(lap)[i].0 in LapRecord(lap))
      && (LapFields(lap)[i].1.Some? ==> LapRecord(lap)[LapFields(lap)[i].0] == LapFields(lap)[i].1.value)
  {
    var fields := LapFields(lap);
    assert DistinctKeys(fields) by {
      forall a, b | 0 <= a < b < 9 ensures fields[a].0 != fields[b].0 {
        var x, y := fields[a].0, fields[b].0;
        assert |x| != |y| || x[0] != y[0];
      }
    }
    assert forall i :: 0 <= i < |fields| ==> fields[i].1 != Some(JNull);
    forall i | 0 <= i < 9
      ensures (fields[i].1.Some? <==> fields[i].0 in Compact(fields))
      ensures fields[i].1.Some? ==> Compact(fields)[fields[i].0] == fields[i].1.value
    {
      CompactHolds(fields, i);
    }
    forall k | k in Compact(fields) ensures k in LapKeys {
      CompactKeysFrom(fields, k);
    }
    CompactHasNoNull(fields);
  }

  /** Lines 126-131: a position only when both coordinates parse. */
  function PositionOf(tp: TrackpointElement): Option<Json> {
    if tp.position.None? then None
    else
      var lat := GetFloat(tp.position.value.latitude);
      var lon := GetFloat(tp.position.value.longitude);
      if lat.Some? && lon.Some? then
        Some(JObj(map["lat" := JReal(lat.value), "lon" := JReal(lon.value)]))
      else
        None
  }

  /** The measurements a trackpoint may carry besides its time. */
  function Measurements(tp: TrackpointElement): seq<(string, Option<Json>)> {
    [ ("position", PositionOf(tp)),
      ("speed_ms", RealField(GetFloat(tp.speed))),
      ("altitude_m", RealField(GetFloat(tp.altitude))),
      ("distance_m", RealField(GetFloat(tp.distance))),
      ("heart_rate", IntField(GetInt(tp.heartRate))) ]
  }

  /** Lines 121-154: the time (possibly null) and the measurements that exist. */
  function TrackpointRecord(tp: TrackpointElement): map<string, Json> {
    map["time" := TextOrNull(GetText(tp.time))] + Compact(Measurements(tp))
  }

  predicate HasMeasurement(tp: TrackpointElement) {
    exists i :: 0 <= i < 5 && Measurements(tp)[i].1.Some?
  }

  /**
   * Line 157 keeps a trackpoint when its record has more than one key, which is
   * exactly when it carries some measurement besides the time.
   */
  lemma TrackpointKeptIff(tp: TrackpointElement)
    ensures "time" in TrackpointRecord(tp)
    ensures |TrackpointRecord(tp)| > 1 <==> HasMeasurement(tp)
  {
    var ms := Measurements(tp);
    assert DistinctKeys(ms);
    assert forall i :: 0 <= i < |ms| ==> ms[i].0 != "time";
    MoreThanTime(TextOrNull(GetText(tp.time)), ms);
  }

  /** A record made of a time and compacted entries has more than one key exactly when some entry exists. */
  lemma MoreThanTime(time: Json, entries: seq<(string, Option<Json>)>)
    requires DistinctKeys(entries) && forall i :: 0 <= i < |entries| ==> entries[i].0 != "time"
    ensures var rec := map["time" := time] + Compact(entries);
      "time" in rec && (|rec| > 1 <==> exists i :: 0 <= i < |entries| && entries[i].1.Some?)
  {
    var c := Compact(entries);
    var rec := map["time" := time] + c;
    assert "time" !in c by {
      if "time" in c { CompactKeysFrom(entries, "time"); }
    }
    assert rec.Keys == {"time"} + c.Keys;
    assert |rec.Keys| == 1 + |c.Keys|;
    if exists i :: 0 <= i < |entries| && entries[i].1.Some? {
      var i :| 0 <= i < |entries| && entries[i].1.Some?;
      CompactHolds(entries, i);
      assert entries[i].0 in c.Keys;
    } else {
      assert c.Keys == {} by {
        forall k | k in c ensures false { CompactKeysFrom(entries, k); }
      }
    }
  }

  /** A position is present exactly when the Position element exists and both coordinates parse. */
  lemma PositionIff(tp: TrackpointElement)
    ensures "position" in TrackpointRecord(tp) <==>
      tp.position.Some? && GetFloat(tp.position.value.latitude).Some? && GetFloat(tp.position.value.longitude).Some?
  {
    var ms := Measurements(tp);
    assert DistinctKeys(ms);
    CompactHolds(ms, 0);
  }

  /** The record of every trackpoint, in document order. */
  function TrackpointRecords(tps: seq<TrackpointElement>): (records: seq<map<string, Json>>)
    ensures |records| == |tps|
  {
    seq(|tps|, i requires 0 <= i < |tps| => TrackpointRecord(tps[i]))
  }

  /** Line 157: the records with more than one key, in order. */
  function Useful(records: seq<map<string, Json>>): seq<map<string, Json>>
    decreases |records|
  {
    if |records| == 0 then []
    else
      var prev := Useful(records[..|records| - 1]);
      var rec := records[|records| - 1];
      if |rec| > 1 then prev + [rec] else prev
  }

  /** The records of the trackpoints worth keeping, in document order, before the cap. */
  function Kept(tps: seq<TrackpointElement>): seq<map<string, Json>> {
    Useful(TrackpointRecords(tps))
  }

  lemma UsefulStep(records: seq<map<string, Json>>, rec: map<string, Json>)
    ensures Useful(records + [rec]) == if |rec| > 1 then Useful(records) + [rec] else Useful(records)
  {
    assert (records + [rec])[..|records|] == records;
  }

  lemma {:induction false} UsefulAppend(a: seq<map<string, Json>>, b: seq<map<string, Json>>)
    ensures Useful(a + b) == Useful(a) + Useful(b)
    decreases |b|
  {
    if |b| == 0 {
      assert a + b == a;
    } else {
      var b' := b[..|b| - 1];
      var rec := b[|b| - 1];
      assert a + b == (a + b') + [rec];
      assert b == b' + [rec];
      UsefulAppend(a, b');
      UsefulStep(a + b', rec);
      UsefulStep(b', rec);
    }
  }

  /** The kept records of one more trackpoint: its record is added exactly when it has more than one key. */
  lemma KeptStep(tps: seq<TrackpointElement>, tp: TrackpointElement)
    ensures var rec := TrackpointRecord(tp);
      Kept(tps + [tp]) == if |rec| > 1 then Kept(tps) + [rec] else Kept(tps)
  {
    assert TrackpointRecords(tps + [tp]) == TrackpointRecords(tps) + [TrackpointRecord(tp)];
    UsefulStep(TrackpointRecords(tps), TrackpointRecord(tp));
  }

  lemma KeptAppend(a: seq<TrackpointElement>, b: seq<TrackpointElement>)
    ensures Kept(a + b) == Kept(a) + Kept(b)
  {
    assert TrackpointRecords(a + b) == TrackpointRecords(a) + TrackpointRecords(b);
    UsefulAppend(TrackpointRecords(a), TrackpointRecords(b));
  }

  function Min(a: nat, b: nat): nat { if a < b then a else b }

  /** The trackpoint list `parse_tcx` returns: the first kept records, at most MaxTrackpoints of them. */
  function CappedTrackpoints(tps: seq<TrackpointElement>): seq<map<string, Json>> {
    var kept := Kept(tps);
    kept[..Min(MaxTrackpoints, |kept|)]
  }

  /** One lap record per Lap element, in document order. */
  function LapRecords(laps: seq<LapElement>): (records: seq<map<string, Json>>)
    ensures |records| == |laps|
  {
    seq(|laps|, i requires 0 <= i < |laps| => LapRecord(laps[i]))
  }

  /** `parse_tcx`, from the elements the document's `find`/`findall` calls return. */
  method ParseTcx(doc: TcxDocument) returns (data: TcxData)
    ensures data.activityType == if doc.activity.Some? then doc.activity.value.sport else None
    ensures data.activityId == if doc.activity.Some? then GetText(doc.activity.value.id) else None
    ensures data.laps == LapRecords(doc.laps)
    ensures data.trackpoints == CappedTrackpoints(doc.trackpoints)
  {
    var activityType: Option<string> := None;
    var activityId: Option<string> := None;
    if doc.activity.Some? {
      activityType := doc.activity.value.sport;
      if doc.activity.value.id.Found? {
        activityId := doc.activity.value.id.text;
      }
    }

    var laps := ParseLaps(doc.laps);
    var trackpoints := ParseTrackpoints(doc.trackpoints);
    data := TcxData(activityType, activityId, laps, trackpoints);
  }

  /** Lines 95-111: one record per Lap element, in document order. */
  method ParseLaps(lapElements: seq<LapElement>) returns (laps: seq<map<string, Json>>)
    ensures laps == LapRecords(lapElements)
  {
    laps := [];
    var i := 0;
    while i < |lapElements|
      invariant 0 <= i <= |lapElements|
      invariant laps == LapRecords(lapElements[..i])
    {
      laps := laps + [Compact(LapFields(lapElements[i]))];
      i := i + 1;
    }
    assert lapElements[..|lapElements|] == lapElements;
  }

  /** Lines 113-159: the kept trackpoint records, stopping once MaxTrackpoints are held. */
  method ParseTrackpoints(tps: seq<TrackpointElement>) returns (trackpoints: seq<map<string, Json>>)
    ensures trackpoints == CappedTrackpoints(tps)
  {
    trackpoints := [];
    var count := 0;
    var j := 0;
    while j < |tps|
      invariant 0 <= j <= |tps|
      invariant count == |trackpoints| <= MaxTrackpoints
      invariant trackpoints == Kept(tps[..j])
    {
      if count >= MaxTrackpoints {
        break;
      }
      assert tps[..j + 1] == tps[..j] + [tps[j]];
      KeptStep(tps[..j], tps[j]);
      var rec := TrackpointRecord(tps[j]);
      if |rec| > 1 {
        trackpoints := trackpoints + [rec];
        count := count + 1;
      }
      j := j + 1;
    }
    CapOfPrefix(tps, j, trackpoints);
  }

  /** Once the kept records of a prefix reach the cap, or the prefix is everything, they are the capped list. */
  lemma CapOfPrefix(tps: seq<TrackpointElement>, j: nat, kept: seq<map<string, Json>>)
    requires j <= |tps| && kept == Kept(tps[..j]) && |kept| <= MaxTrackpoints
    requires j < |tps| ==> |kept| >= MaxTrackpoints
    ensures kept == CappedTrackpoints(tps)
  {
    assert tps == tps[..j] + tps[j..];
    KeptAppend(tps[..j], tps[j..]);
    if j == |tps| {
      assert tps[..j] == tps;
    }
  }

  /**
   * The cap: the result is the first min(10000, k) of the k trackpoints worth
   * keeping, in document order, never more than 10000 and never more than
   * there are trackpoints; every one of them carries `time` and a measurement,
   * and is the record of one of the trackpoints.
   */
  lemma CapKeepsPrefix(tps: seq<TrackpointElement>)
    ensures |CappedTrackpoints(tps)| == Min(MaxTrackpoints, |Kept(tps)|)
    ensures CappedTrackpoints(tps) <= Kept(tps)
    ensures |Kept(tps)| >= MaxTrackpoints ==> |CappedTrackpoints(tps)| == MaxTrackpoints
    ensures |CappedTrackpoints(tps)| <= MaxTrackpoints && |CappedTrackpoints(tps)| <= |tps|
    ensures forall r :: r in CappedTrackpoints(tps) ==> "time" in r && |r| > 1
    ensures forall r :: r in CappedTrackpoints(tps) ==>
      exists i :: 0 <= i < |tps| && r == TrackpointRecord(tps[i])
  {
    var capped := CappedTrackpoints(tps);
    KeptRecordsAreUseful(tps);
    forall r | r in capped ensures r in Kept(tps) {
      var j :| 0 <= j < |capped| && capped[j] == r;
      assert Kept(tps)[j] == r;
    }
  }

  /** Every kept record carries a time key and at least one more key, and comes from some trackpoint. */
  lemma KeptRecordsAreUseful(tps: seq<TrackpointElement>)
    ensures |Kept(tps)| <= |tps|
    ensures forall r :: r in Kept(tps) ==> "time" in r && |r| > 1
    ensures forall r :: r in Kept(tps) ==> exists i :: 0 <= i < |tps| && r == TrackpointRecord(tps[i])
  {
    var records := TrackpointRecords(tps);
    UsefulAreUseful(records);
    forall r | r in Kept(tps) ensures "time" in r && exists i :: 0 <= i < |tps| && r == TrackpointRecord(tps[i]) {
      var i :| 0 <= i < |records| && records[i] == r;
      TrackpointKeptIff(tps[i]);
    }
  }

  /** The useful records are records of the input with more than one key, and no more of them. */
  lemma {:induction false} UsefulAreUseful(records: seq<map<string, Json>>)
    ensures |Useful(records)| <= |records|
    ensures forall r :: r in Useful(records) ==> |r| > 1 && r in records
    decreases |records|
  {
    if |records| > 0 {
      var init := records[..|records| - 1];
      UsefulAreUseful(init);
      assert records == init + [records[|records| - 1]];
      UsefulStep(init, records[|records| - 1]);
    }
  }

  /** A trackpoint with a time and nothing else is never kept. */
  lemma TimeOnlyDropped(prefix: seq<TrackpointElement>, tp: TrackpointElement)
    requires !HasMeasurement(tp)
    ensures Kept(prefix + [tp]) == Kept(prefix)
  {
    TrackpointKeptIff(tp);
    KeptStep(prefix, tp);
  }

  /** A trackpoint with some measurement is kept, after the ones before it. */
  lemma MeasuredKept(prefix: seq<TrackpointElement>, tp: TrackpointElement)
    requires HasMeasurement(tp)
    ensures Kept(prefix + [tp]) == Kept(prefix) + [TrackpointRecord(tp)]
  {
    TrackpointKeptIff(tp);
    KeptStep(prefix, tp);
  }
}
