/**
 * The consolidated training log: one summary per parsed activity document,
 * in sorted file order, with running totals of distance, calories and time
 * and the statistics derived from them.
 */
module TrainingLog {
  import opened Wrappers
  import opened Text
  import opened JsonValue
  import opened Paths
  import opened NameOrder

  /** `int(x)` of a summary's calories, contributing 0 when the lookup or the conversion raises. */
  function CaloriesOf(summary: Json): int {
    match Get(summary, "calories", JInt(0))
    case None => 0
    case Some(v) => if ToInt(v).Some? then ToInt(v).value else 0
  }

  /** `float(x)` of a summary's distance, contributing 0.0 when the lookup or the conversion raises. */
  function DistanceOf(summary: Json): real {
    match Get(summary, "getdistance", JInt(0))
    case None => 0.0
    case Some(v) => if ToFloat(v).Some? then ToFloat(v).value else 0.0
  }

  /** Seconds of an `H:M:S` text whose three parts are all integers; None for any other text. */
  function HmsSeconds(text: string): Option<int> {
    HmsParts(Split(Strip(text), ':'))
  }

  /** `h, m, s = map(int, parts)` when there are three parts, all of them integers. */
  function HmsParts(parts: seq<string>): Option<int> {
    if |parts| == 3 && ParseInt(parts[0]).Some? && ParseInt(parts[1]).Some? && ParseInt(parts[2]).Some? then
      Some(ParseInt(parts[0]).value * 3600 + ParseInt(parts[1]).value * 60 + ParseInt(parts[2]).value)
    else
      None
  }

  /** Line 74: the time a summary without one is taken to have, "00:00:00". */
  const DefaultTime: string := "00" + ":" + "00" + ":" + "00"

  /** Lines 73-80: the seconds a summary's time adds, "00:00:00" when absent, 0 when it does not read. */
  function SecondsOf(summary: Json): int {
    match Get(summary, "time", JStr(DefaultTime))
    case Some(JStr(text)) => if HmsSeconds(text).Some? then HmsSeconds(text).value else 0
    case _ => 0
  }

  /** What a csv source adds to an activity summary, and what its summary adds to the totals. */
  datatype CsvPart = CsvPart(fields: map<string, Json>, distance: real, calories: int, seconds: int)

  const NoCsvPart := CsvPart(map[], 0.0, 0, 0)

  /**
   * Lines 56-84. None where Python raises outside the `try` blocks: an `in`
   * test on a value that is not a container, or a subscript that fails.
   */
  function CsvSection(sources: Json): Option<CsvPart> {
    var hasCsv := Contains(sources, "csv");
    if hasCsv.None? then None
    else if !hasCsv.value then Some(NoCsvPart)
    else
      var csv := Subscript(sources, "csv");
      if csv.None? then None
      else
        var hasData := Contains(csv.value, "data");
        if hasData.None? then None
        else if !hasData.value then Some(NoCsvPart)
        else
          var data := Subscript(csv.value, "data");
          if data.None? then None
          else DataSection(data.value)
  }

  /** Lines 60-84, once `csv_data` is bound. */
  function DataSection(data: Json): Option<CsvPart> {
    var hasSummary := Contains(data, "summary");
    if hasSummary.None? then None
    else
      var withSummary := if hasSummary.value then SummaryPart(data) else Some(NoCsvPart);
      if withSummary.None? then None
      else
        var hasSplits := Contains(data, "splits");
        if hasSplits.None? then None
        else if !hasSplits.value then withSummary
        else
          var splits := Subscript(data, "splits");
          if splits.None? then None
          else Some(withSummary.value.(fields := withSummary.value.fields["splits" := splits.value]))
  }

  function SummaryPart(data: Json): Option<CsvPart> {
    var summary := Subscript(data, "summary");
    if summary.None? then None
    else
      var v := summary.value;
      Some(CsvPart(map["summary" := v], DistanceOf(v), CaloriesOf(v), SecondsOf(v)))
  }

  /** Lines 87-94: the `tcx_metadata` entry, with the trackpoint and lap counts instead of the lists. */
  function TcxSection(sources: Json): Option<map<string, Json>> {
    var hasTcx := Contains(sources, "tcx");
    if hasTcx.None? then None
    else if !hasTcx.value then Some(map[])
    else
      var tcx := Subscript(sources, "tcx");
      if tcx.None? then None
      else
        var hasData := Contains(tcx.value, "data");
        if hasData.None? then None
        else if !hasData.value then Some(map[])
        else
          var data := Subscript(tcx.value, "data");
          if data.None? || !data.value.JObj? then None
          else TcxMetadata(data.value.fields)
  }

  /** `len(tcx_data.get('trackpoints', []))` and its siblings, on the dict `tcx_data`. */
  function TcxMetadata(data: map<string, Json>): Option<map<string, Json>> {
    var trackpoints := if "trackpoints" in data then data["trackpoints"] else JArr([]);
    var laps := if "laps" in data then data["laps"] else JArr([]);
    if Length(trackpoints).None? || Length(laps).None? then None
    else
      Some(map["tcx_metadata" := JObj(map[
        "activity_type" := if "activity_type" in data then data["activity_type"] else JNull,
        "activity_id" := if "activity_id" in data then data["activity_id"] else JNull,
        "total_trackpoints" := JInt(Length(trackpoints).value),
        "total_laps" := JInt(Length(laps).value)])])
  }

  /** One activity's entry in the log and its contributions to the totals. */
  datatype Summary = Summary(entry: Json, distance: real, calories: int, seconds: int)

  /** Lines 46-100 for one file: None where the file cannot be read or the code raises. */
  function SummarizeFile(content: Option<Json>): Option<Summary> {
    if content.None? then None
    else
      var doc := content.value;
      if !doc.JObj? || "date" !in doc.fields || "sources" !in doc.fields then None
      else
        var sources := doc.fields["sources"];
        var metadata := if "metadata" in doc.fields then doc.fields["metadata"] else EmptyObject;
        var csv := CsvSection(sources);
        var tcx := TcxSection(sources);
        if csv.None? || tcx.None? then None
        else
          var base := map["date" := doc.fields["date"], "metadata" := metadata, "raw_data_files" := sources];
          Some(Summary(JObj(base + csv.value.fields + tcx.value), csv.value.distance, csv.value.calories, csv.value.seconds))
  }

  /** The totals read back from a written activity entry: what its `summary` contributes, or nothing. */
  function EntryCalories(entry: Json): int {
    if entry.JObj? && "summary" in entry.fields then CaloriesOf(entry.fields["summary"]) else 0
  }

  function EntryDistance(entry: Json): real {
    if entry.JObj? && "summary" in entry.fields then DistanceOf(entry.fields["summary"]) else 0.0
  }

  function EntrySeconds(entry: Json): int {
    if entry.JObj? && "summary" in entry.fields then SecondsOf(entry.fields["summary"]) else 0
  }

  /**
   * An activity's contributions are exactly what its written `summary`
   * yields: an activity without a csv summary has no `summary` key and adds
   * nothing. Its entry always carries the date and the sources unchanged.
   */
  lemma SummaryContribution(content: Option<Json>)
    requires SummarizeFile(content).Some?
    ensures var s := SummarizeFile(content).value;
      s.entry.JObj? && s.calories == EntryCalories(s.entry) && s.distance == EntryDistance(s.entry)
      && s.seconds == EntrySeconds(s.entry)
    ensures var s := SummarizeFile(content).value;
      s.entry.fields["date"] == content.value.fields["date"]
      && s.entry.fields["raw_data_files"] == content.value.fields["sources"]
      && ("tcx_metadata" in s.entry.fields ==> s.entry.fields["tcx_metadata"].JObj?)
  {
    var doc := content.value;
    var sources := doc.fields["sources"];
    var csv := CsvSection(sources).value;
    var tcx := TcxSection(sources).value;
    assert "summary" !in tcx && "date" !in tcx && "raw_data_files" !in tcx;
    assert csv.fields.Keys <= {"summary", "splits"};
    assert "summary" !in csv.fields ==> csv.distance == 0.0 && csv.calories == 0 && csv.seconds == 0;
  }

  /**
   * Lines 65-72: a summary value that `float()` or `int()` rejects adds 0 to
   * its total, one that they accept adds what they read; the `except` never
   * lets the failure out.
   */
  lemma ValuesCoerceOrZero(fields: map<string, Json>, v: Json)
    ensures ToInt(v).None? ==> CaloriesOf(JObj(fields["calories" := v])) == 0
    ensures ToInt(v).Some? ==> CaloriesOf(JObj(fields["calories" := v])) == ToInt(v).value
    ensures ToFloat(v).None? ==> DistanceOf(JObj(fields["getdistance" := v])) == 0.0
    ensures ToFloat(v).Some? ==> DistanceOf(JObj(fields["getdistance" := v])) == ToFloat(v).value
  {
  }

  /**
   * Lines 74-80: a time adds h*3600 + m*60 + s only when its stripped text has
   * three integer parts; a two-part "MM:SS" time, any other number of parts,
   * a part that is not an integer, or a value that is not text adds 0.
   */
  lemma TimeCoercesOrZero(fields: map<string, Json>, v: Json)
    ensures !v.JStr? ==> SecondsOf(JObj(fields["time" := v])) == 0
    ensures v.JStr? && |Split(Strip(v.s), ':')| != 3 ==> SecondsOf(JObj(fields["time" := v])) == 0
    ensures v.JStr? && |Split(Strip(v.s), ':')| == 3 ==>
      var parts := Split(Strip(v.s), ':');
      if ParseInt(parts[0]).Some? && ParseInt(parts[1]).Some? && ParseInt(parts[2]).Some? then
        SecondsOf(JObj(fields["time" := v])) ==
          ParseInt(parts[0]).value * 3600 + ParseInt(parts[1]).value * 60 + ParseInt(parts[2]).value
      else
        SecondsOf(JObj(fields["time" := v])) == 0
  {
  }

  /**
   * A summary that is not a dict has no `.get` and adds nothing; a missing
   * key adds its default, 0, 0 and "00:00:00", which all come to zero.
   */
  lemma MissingValuesAddNothing(summary: Json)
    ensures !summary.JObj? ==> CaloriesOf(summary) == 0 && DistanceOf(summary) == 0.0 && SecondsOf(summary) == 0
    ensures summary.JObj? && "calories" !in summary.fields ==> CaloriesOf(summary) == 0
    ensures summary.JObj? && "getdistance" !in summary.fields ==> DistanceOf(summary) == 0.0
    ensures summary.JObj? && "time" !in summary.fields ==> SecondsOf(summary) == 0
  {
    ZeroTimeReadsZero();
  }

  /** The default time "00:00:00" reads as 0 seconds. */
  lemma ZeroTimeReadsZero()
    ensures HmsSeconds(DefaultTime) == Some(0)
  {
    var z := "00";
    assert AllDigits(z) && z[..1] == "0" && z[..0] == "";
    assert DigitsValue(z) == 0;
    ParseIntDigits(z);
    NotSpace(z[0]);
    ReadFields(z, z, z, 0, 0, 0);
  }

  /**
   * A document with a date and a csv source whose data holds a summary, and no
   * tcx source, always summarizes, whatever the summary's values are: the
   * loop never stops at it, and it adds what the summary's values coerce to.
   */
  lemma AnySummaryIsCounted(doc: Json)
    requires doc.JObj? && "date" in doc.fields && "sources" in doc.fields
    requires var sources := doc.fields["sources"];
      sources.JObj? && "tcx" !in sources.fields && "csv" in sources.fields
      && sources.fields["csv"].JObj? && "data" in sources.fields["csv"].fields
      && sources.fields["csv"].fields["data"].JObj? && "summary" in sources.fields["csv"].fields["data"].fields
    ensures var summary := doc.fields["sources"].fields["csv"].fields["data"].fields["summary"];
      SummarizeFile(Some(doc)).Some?
      && SummarizeFile(Some(doc)).value.distance == DistanceOf(summary)
      && SummarizeFile(Some(doc)).value.calories == CaloriesOf(summary)
      && SummarizeFile(Some(doc)).value.seconds == SecondsOf(summary)
  {
  }

  /** A summary whose three values all fail to convert. */
  const InvalidSummary: Json :=
    JObj(map["getdistance" := JStr("invalid"), "time" := JStr("invalid:time"), "calories" := JStr("N/A")])

  /** getdistance="invalid", time="invalid:time" and calories="N/A" each add nothing. */
  lemma InvalidSummaryValues()
    ensures DistanceOf(InvalidSummary) == 0.0 && CaloriesOf(InvalidSummary) == 0 && SecondsOf(InvalidSummary) == 0
  {
    var f := InvalidSummary.fields;
    assert "getdistance" in f && f["getdistance"] == JStr("invalid");
    InvalidDistance();
    assert "calories" in f && f["calories"] == JStr("N/A");
    InvalidCalories();
    assert "time" in f && f["time"] == JStr("invalid:time");
    InvalidTime();
  }

  /** A document carrying that summary still summarizes, and adds nothing to any total. */
  lemma InvalidSummaryAddsNothing(doc: Json)
    requires doc.JObj? && "date" in doc.fields && "sources" in doc.fields
    requires var sources := doc.fields["sources"];
      sources.JObj? && "tcx" !in sources.fields && "csv" in sources.fields
      && sources.fields["csv"].JObj? && "data" in sources.fields["csv"].fields
      && sources.fields["csv"].fields["data"].JObj? && "summary" in sources.fields["csv"].fields["data"].fields
      && sources.fields["csv"].fields["data"].fields["summary"] == InvalidSummary
    ensures SummarizeFile(Some(doc)).Some?
    ensures SummarizeFile(Some(doc)).value.distance == 0.0
    ensures SummarizeFile(Some(doc)).value.calories == 0 && SummarizeFile(Some(doc)).value.seconds == 0
  {
    AnySummaryIsCounted(doc);
    InvalidSummaryValues();
  }

  lemma InvalidDistance()
    ensures ParseDecimal("invalid").None?
  {
    NotSpace('i');
    NotSpace('d');
    StripTrimmed("invalid");
    assert '.' !in "invalid" && !IsDigit("invalid"[0]);
  }

  lemma InvalidCalories()
    ensures ParseInt("N/A").None?
  {
    NotSpace('N');
    NotSpace('A');
    StripTrimmed("N/A");
    assert !IsDigit("N/A"[0]) && !IsDigit("N/A"[1]);
  }

  lemma InvalidTime()
    ensures HmsSeconds("invalid:time").None?
  {
    var a, b := "invalid", "time";
    NotSpace(a[0]);
    NotSpace(b[|b| - 1]);
    assert a + ":" + b == "invalid:time";
    TwoFieldsAreNotHms(a, b);
  }

  /** Two colon-free fields joined by a colon, with no surrounding whitespace, are not an `H:M:S` time. */
  lemma TwoFieldsAreNotHms(a: string, b: string)
    requires ':' !in a && ':' !in b && |a| >= 1 && |b| >= 1 && !IsSpace(a[0]) && !IsSpace(b[|b| - 1])
    ensures HmsSeconds(a + ":" + b).None?
  {
    var text := a + ":" + b;
    assert text[0] == a[0] && text[|text| - 1] == b[|b| - 1];
    StripTrimmed(text);
    assert text == a + [':'] + b;
    SplitAfterPiece(a, ':', b);
  }

  function SumCalories(entries: seq<Json>): int
    decreases |entries|
  {
    if |entries| == 0 then 0 else SumCalories(entries[..|entries| - 1]) + EntryCalories(entries[|entries| - 1])
  }

  function SumDistance(entries: seq<Json>): real
    decreases |entries|
  {
    if |entries| == 0 then 0.0 else SumDistance(entries[..|entries| - 1]) + EntryDistance(entries[|entries| - 1])
  }

  function SumSeconds(entries: seq<Json>): int
    decreases |entries|
  {
    if |entries| == 0 then 0 else SumSeconds(entries[..|entries| - 1]) + EntrySeconds(entries[|entries| - 1])
  }

  /** The loop's state: the activity entries so far and the three running totals. */
  datatype Totals = Totals(activities: seq<Json>, distance: real, calories: int, seconds: int)

  /** The loop over the sorted files, or the file at which it raised. */
  datatype Progress = Running(totals: Totals) | Stopped(file: string)

  function Collect(files: seq<string>, load: string -> Option<Json>): Progress
    decreases |files|
  {
    if |files| == 0 then Running(Totals([], 0.0, 0, 0))
    else
      match Collect(files[..|files| - 1], load)
      case Stopped(f) => Stopped(f)
      case Running(t) =>
        var name := files[|files| - 1];
        match SummarizeFile(load(name))
        case None => Stopped(name)
        case Some(s) => Running(Totals(t.activities + [s.entry], t.distance + s.distance,
                                       t.calories + s.calories, t.seconds + s.seconds))
  }

  /** A zero-padded field of at least two characters, `f"{n:02d}"`. */
  function Pad2(n: int): string {
    if 0 <= n < 10 then "0" + [DigitChar(n)] else IntToString(n)
  }

  /** A padded field is colon-free, has no surrounding space, and reads back as its number. */
  lemma Pad2ReadsBack(n: int)
    ensures |Pad2(n)| >= 2 && ':' !in Pad2(n) && Trimmed(Pad2(n))
    ensures ParseInt(Pad2(n)) == Some(n)
  {
    var s := Pad2(n);
    if 0 <= n < 10 {
      assert AllDigits(s) && IsDigit(s[0]) && IsDigit(s[1]);
      DigitsOfNat(n);
      LeadingZero([DigitChar(n)]);
      ParseIntDigits(s);
    } else {
      if n >= 10 { assert NatToString(n) == NatToString(n / 10) + [DigitChar(n % 10)]; }
      IntToStringShape(n);
      ParseIntOfString(n);
    }
  }

  /** A number below 100 pads to exactly two digits, the `MM` and `SS` width of line 105. */
  lemma Pad2Width(n: int)
    requires 0 <= n < 100
    ensures |Pad2(n)| == 2
  {
    if n >= 10 {
      assert NatToString(n) == NatToString(n / 10) + [DigitChar(n % 10)];
      assert NatToString(n / 10) == [DigitChar(n / 10)];
    }
  }

  /** Line 105: `HH:MM:SS`, hours floor-divided with no 24-hour wraparound. */
  function FormatDuration(total: int): string {
    Pad2(total / 3600) + ":" + Pad2(total % 3600 / 60) + ":" + Pad2(total % 60)
  }

  /**
   * The formatted total splits into hours, minutes and seconds with minutes
   * and seconds in 0..59 and hours the floor of total / 3600 (so 25 hours
   * stay 25), and reading it back as h*3600 + m*60 + s gives the total.
   */
  lemma FormatDurationReadsBack(total: int)
    ensures var parts := Split(FormatDuration(total), ':');
      |parts| == 3 && ParseInt(parts[0]) == Some(total / 3600)
      && ParseInt(parts[1]).Some? && 0 <= ParseInt(parts[1]).value < 60
      && ParseInt(parts[2]).Some? && 0 <= ParseInt(parts[2]).value < 60
    ensures total >= 0 ==> total / 3600 >= 0
    ensures var parts := Split(FormatDuration(total), ':');
      |parts| == 3 && |parts[0]| >= 2 && |parts[1]| == 2 && |parts[2]| == 2
    ensures HmsSeconds(FormatDuration(total)) == Some(total)
  {
    var h, m, s := total / 3600, total % 3600 / 60, total % 60;
    var a, b, c := Pad2(h), Pad2(m), Pad2(s);
    assert FormatDuration(total) == a + ":" + b + ":" + c;
    Pad2ReadsBack(h);
    Pad2ReadsBack(m);
    Pad2ReadsBack(s);
    Pad2Width(m);
    Pad2Width(s);
    ReadFields(a, b, c, h, m, s);
    SecondsArithmetic(total);
    assert h * 3600 + m * 60 + s == total;
  }

  /** Three colon-free integer fields joined by colons split back into those fields and read as h*3600 + m*60 + s. */
  lemma ReadFields(a: string, b: string, c: string, h: int, m: int, s: int)
    requires ':' !in a && ':' !in b && ':' !in c
    requires Trimmed(a) && Trimmed(c) && |a| >= 1 && |c| >= 1
    requires ParseInt(a) == Some(h) && ParseInt(b) == Some(m) && ParseInt(c) == Some(s)
    ensures Split(a + ":" + b + ":" + c, ':') == [a, b, c]
    ensures HmsSeconds(a + ":" + b + ":" + c) == Some(h * 3600 + m * 60 + s)
  {
    var text := a + ":" + b + ":" + c;
    JoinedFields(a, b, c);
    ReadText(text, a, b, c, h, m, s);
  }

  lemma JoinedFields(a: string, b: string, c: string)
    requires ':' !in a && ':' !in b && ':' !in c
    requires Trimmed(a) && Trimmed(c) && |a| >= 1 && |c| >= 1
    ensures Split(a + ":" + b + ":" + c, ':') == [a, b, c]
    ensures Strip(a + ":" + b + ":" + c) == a + ":" + b + ":" + c
  {
    JoinedSplit(a, b, c);
    JoinedTrimmed(a, b, c);
  }

  lemma JoinedSplit(a: string, b: string, c: string)
    requires ':' !in a && ':' !in b && ':' !in c
    ensures Split(a + ":" + b + ":" + c, ':') == [a, b, c]
  {
    var parts := [a, b, c];
    assert Join(parts, ':') == a + ":" + b + ":" + c by {
      assert parts[1..] == [b, c];
      assert Join([b, c], ':') == b + [':'] + c;
    }
    SplitJoin(parts, ':');
  }

  lemma JoinedTrimmed(a: string, b: string, c: string)
    requires Trimmed(a) && Trimmed(c) && |a| >= 1 && |c| >= 1
    ensures Strip(a + ":" + b + ":" + c) == a + ":" + b + ":" + c
  {
    var text := a + ":" + b + ":" + c;
    assert text[0] == a[0];
    assert text[|text| - 1] == c[|c| - 1];
    StripTrimmed(text);
  }

  lemma ReadText(text: string, a: string, b: string, c: string, h: int, m: int, s: int)
    requires Strip(text) == text && Split(text, ':') == [a, b, c]
    requires ParseInt(a) == Some(h) && ParseInt(b) == Some(m) && ParseInt(c) == Some(s)
    ensures HmsSeconds(text) == Some(h * 3600 + m * 60 + s)
  {
    ReadParts(a, b, c, h, m, s);
  }

  lemma ReadParts(a: string, b: string, c: string, h: int, m: int, s: int)
    requires ParseInt(a) == Some(h) && ParseInt(b) == Some(m) && ParseInt(c) == Some(s)
    ensures HmsParts([a, b, c]) == Some(h * 3600 + m * 60 + s)
  {
  }

  lemma SecondsArithmetic(total: int)
    ensures total / 3600 * 3600 + total % 3600 / 60 * 60 + total % 60 == total
  {
    var q, r := total / 3600, total % 3600;
    var a, b := r / 60, r % 60;
    assert total == 3600 * q + 60 * a + b;
    assert total == 60 * (60 * q + a) + b;
    assert total % 60 == b;
  }

  /** The outcome of `aggregate_training_data`: an early return, a raised exception, or the written log. */
  datatype Outcome =
    | MissingDirectory
    | NoJsonFiles
    | Crashed(file: string)
    | Written(log: Json)

  /** Lines 103-112: the statistics block; the total time is formatted when the block is written out. */
  datatype Statistics = Statistics(
    totalDistance: real, totalSeconds: int, totalCalories: int,
    averageDistance: real, firstActivity: string, lastActivity: string)

  /**
   * The statistics of a non-empty sorted file list; the `if json_files else`
   * fallbacks of lines 108-111 cannot be reached after the early return.
   */
  function StatisticsOf(t: Totals, jsonFiles: seq<string>): Statistics
    requires |jsonFiles| >= 1
  {
    var n := |jsonFiles|;
    Statistics(t.distance, t.seconds, t.calories,
               Average(t.distance, n), Stem(jsonFiles[0]), Stem(jsonFiles[n - 1]))
  }

  /** Line 107: the mean distance over the files; times the count it gives the total back. */
  function Average(total: real, n: nat): (average: real)
    requires n >= 1
    ensures average * (n as real) == total
  {
    total / n as real
  }

  function StatisticsJson(st: Statistics): Json {
    JObj(map[
      "total_distance_km" := JReal(st.totalDistance),
      "total_time_formatted" := JStr(FormatDuration(st.totalSeconds)),
      "total_calories" := JInt(st.totalCalories),
      "average_distance_per_run" := JReal(st.averageDistance),
      "date_range" := JObj(map[
        "first_activity" := JStr(st.firstActivity),
        "last_activity" := JStr(st.lastActivity)])])
  }

  /** Lines 28-37 and 103-112: the log document from the sorted file names and the final totals. */
  function LogDocument(createdAt: string, jsonFiles: seq<string>, t: Totals): Json
    requires |jsonFiles| >= 1
  {
    JObj(map[
      "metadata" := JObj(map[
        "athlete_name" := JStr("Training Log"),
        "created_at" := JStr(createdAt),
        "total_activities" := JInt(|jsonFiles|),
        "data_source" := JStr("Coros Running Watch"),
        "purpose" := JStr("AI Training Coach Analysis"),
        "statistics" := StatisticsJson(StatisticsOf(t, jsonFiles))]),
      "activities" := JArr(t.activities)])
  }

  /** `aggregate_training_data`, over whether the directory exists, its `*.json` names and their contents. */
  function Aggregate(dirExists: bool, listing: seq<string>, load: string -> Option<Json>, createdAt: string): Outcome {
    if !dirExists then MissingDirectory
    else
      var jsonFiles := SortNames(listing);
      if |jsonFiles| == 0 then NoJsonFiles
      else
        match Collect(jsonFiles, load)
        case Stopped(f) => Crashed(f)
        case Running(t) => Written(LogDocument(createdAt, jsonFiles, t))
  }

  /** Once the loop has raised, later files change nothing. */
  lemma {:induction false} CollectStopped(files: seq<string>, more: seq<string>, load: string -> Option<Json>)
    requires Collect(files, load).Stopped?
    ensures Collect(files + more, load) == Collect(files, load)
    decreases |more|
  {
    if |more| == 0 {
      assert files + more == files;
    } else {
      assert (files + more)[..|files + more| - 1] == files + more[..|more| - 1];
      CollectStopped(files, more[..|more| - 1], load);
    }
  }

  /**
   * Lines 12-112: the early returns, the loop over the sorted files, and the
   * log built from its totals, which the source then dumps to the output file.
   */
  method AggregateTrainingData(dirExists: bool, listing: seq<string>, load: string -> Option<Json>, createdAt: string)
    returns (outcome: Outcome)
    ensures outcome == Aggregate(dirExists, listing, load, createdAt)
  {
    if !dirExists {
      return MissingDirectory;
    }
    var jsonFiles := SortNames(listing);
    if |jsonFiles| == 0 {
      return NoJsonFiles;
    }
    var progress := AccumulateActivities(jsonFiles, load);
    if progress.Stopped? {
      outcome := Crashed(progress.file);
    } else {
      outcome := Written(LogDocument(createdAt, jsonFiles, progress.totals));
    }
  }

  /**
   * Lines 39-100: the loop keeping the running totals and appending one
   * summary per file, stopping at the first file that raises.
   */
  method AccumulateActivities(jsonFiles: seq<string>, load: string -> Option<Json>) returns (progress: Progress)
    ensures progress == Collect(jsonFiles, load)
  {
    var activities: seq<Json> := [];
    var totalDistance: real := 0.0;
    var totalTimeSeconds := 0;
    var totalCalories := 0;

    var i := 0;
    while i < |jsonFiles|
      invariant 0 <= i <= |jsonFiles|
      invariant Collect(jsonFiles[..i], load) == Running(Totals(activities, totalDistance, totalCalories, totalTimeSeconds))
    {
      var summary := SummarizeFile(load(jsonFiles[i]));
      CollectStep(jsonFiles, i, load, Totals(activities, totalDistance, totalCalories, totalTimeSeconds), summary);
      if summary.None? {
        StoppedPrefix(jsonFiles, i + 1, load);
        return Stopped(jsonFiles[i]);
      }
      activities := activities + [summary.value.entry];
      totalDistance := totalDistance + summary.value.distance;
      totalCalories := totalCalories + summary.value.calories;
      totalTimeSeconds := totalTimeSeconds + summary.value.seconds;
      i := i + 1;
    }
    assert jsonFiles[..i] == jsonFiles;
    progress := Running(Totals(activities, totalDistance, totalCalories, totalTimeSeconds));
  }

  /** A loop that raised on a prefix of the files raised on all of them, at the same file. */
  lemma StoppedPrefix(files: seq<string>, n: nat, load: string -> Option<Json>)
    requires n <= |files| && Collect(files[..n], load).Stopped?
    ensures Collect(files, load) == Collect(files[..n], load)
  {
    CollectStopped(files[..n], files[n..], load);
    assert files[..n] + files[n..] == files;
  }

  /** One more file: the loop raises at it when it does not summarize, and adds its summary otherwise. */
  lemma CollectStep(files: seq<string>, i: nat, load: string -> Option<Json>, t: Totals, summary: Option<Summary>)
    requires i < |files| && Collect(files[..i], load) == Running(t) && summary == SummarizeFile(load(files[i]))
    ensures summary.None? ==> Collect(files[..i + 1], load) == Stopped(files[i])
    ensures summary.Some? ==>
      Collect(files[..i + 1], load) ==
        Running(Totals(t.activities + [summary.value.entry], t.distance + summary.value.distance,
                       t.calories + summary.value.calories, t.seconds + summary.value.seconds))
  {
    assert files[..i + 1][..i] == files[..i];
  }

  /**
   * A loop that runs to the end has one entry per file, in the order of the
   * files, and its totals are the sums over those entries of what each
   * entry's `summary` contributes.
   */
  lemma CollectRunning(files: seq<string>, load: string -> Option<Json>)
    requires Collect(files, load).Running?
    ensures var t := Collect(files, load).totals;
      |t.activities| == |files|
      && (forall i :: 0 <= i < |files| ==>
            SummarizeFile(load(files[i])).Some? && t.activities[i] == SummarizeFile(load(files[i])).value.entry)
      && t.calories == SumCalories(t.activities)
      && t.distance == SumDistance(t.activities)
      && t.seconds == SumSeconds(t.activities)
  {
    CollectEntries(files, load);
    CollectSums(files, load);
  }

  lemma {:induction false} CollectEntries(files: seq<string>, load: string -> Option<Json>)
    requires Collect(files, load).Running?
    ensures var t := Collect(files, load).totals;
      |t.activities| == |files|
      && forall i :: 0 <= i < |files| ==>
           SummarizeFile(load(files[i])).Some? && t.activities[i] == SummarizeFile(load(files[i])).value.entry
    decreases |files|
  {
    if |files| > 0 {
      var init := files[..|files| - 1];
      CollectEntries(init, load);
      var t := Collect(files, load).totals;
      var t0 := Collect(init, load).totals;
      assert t.activities[..|t.activities| - 1] == t0.activities;
      forall i | 0 <= i < |files|
        ensures SummarizeFile(load(files[i])).Some? && t.activities[i] == SummarizeFile(load(files[i])).value.entry
      {
        if i < |files| - 1 { assert files[i] == init[i]; }
      }
    }
  }

  lemma {:induction false} CollectSums(files: seq<string>, load: string -> Option<Json>)
    requires Collect(files, load).Running?
    ensures var t := Collect(files, load).totals;
      t.calories == SumCalories(t.activities)
      && t.distance == SumDistance(t.activities)
      && t.seconds == SumSeconds(t.activities)
    decreases |files|
  {
    if |files| > 0 {
      var init := files[..|files| - 1];
      CollectSums(init, load);
      SummaryContribution(load(files[|files| - 1]));
      var t := Collect(files, load).totals;
      var t0 := Collect(init, load).totals;
      assert t.activities[..|t.activities| - 1] == t0.activities;
    }
  }

  /** The loop raises exactly when some file does not summarize, and reports the first such file. */
  lemma {:induction false} CollectStopsAtFirstFailure(files: seq<string>, load: string -> Option<Json>)
    ensures Collect(files, load).Stopped? <==> exists i :: 0 <= i < |files| && SummarizeFile(load(files[i])).None?
    ensures Collect(files, load).Stopped? ==>
      exists i :: 0 <= i < |files| && files[i] == Collect(files, load).file && SummarizeFile(load(files[i])).None?
        && forall j :: 0 <= j < i ==> SummarizeFile(load(files[j])).Some?
    decreases |files|
  {
    if |files| > 0 {
      var init := files[..|files| - 1];
      CollectStopsAtFirstFailure(init, load);
      if Collect(init, load).Stopped? {
        var i :| 0 <= i < |init| && init[i] == Collect(init, load).file && SummarizeFile(load(init[i])).None?
          && forall j :: 0 <= j < i ==> SummarizeFile(load(init[j])).Some?;
        assert files[i] == init[i];
        forall j | 0 <= j < i ensures SummarizeFile(load(files[j])).Some? { assert files[j] == init[j]; }
      } else {
        CollectRunning(init, load);
        forall j | 0 <= j < |files| - 1 ensures SummarizeFile(load(files[j])).Some? { assert files[j] == init[j]; }
      }
    }
  }

  /** The early returns: a missing directory or one without JSON files writes nothing; any raise stops the run. */
  lemma AggregateOutcome(dirExists: bool, listing: seq<string>, load: string -> Option<Json>, createdAt: string)
    ensures Aggregate(dirExists, listing, load, createdAt) == MissingDirectory <==> !dirExists
    ensures Aggregate(dirExists, listing, load, createdAt) == NoJsonFiles <==> dirExists && |listing| == 0
    ensures Aggregate(dirExists, listing, load, createdAt).Written? <==>
      dirExists && |listing| > 0 && forall name :: name in listing ==> SummarizeFile(load(name)).Some?
    ensures Aggregate(dirExists, listing, load, createdAt).Crashed? ==>
      Aggregate(dirExists, listing, load, createdAt).file in listing
      && SummarizeFile(load(Aggregate(dirExists, listing, load, createdAt).file)).None?
  {
    var jsonFiles := SortNames(listing);
    SortedSameNames(listing);
    CollectStopsAtFirstFailure(jsonFiles, load);
  }

  lemma SortedSameNames(listing: seq<string>)
    ensures |SortNames(listing)| == |listing|
    ensures forall name :: name in listing <==> name in SortNames(listing)
  {
    var jsonFiles := SortNames(listing);
    assert |jsonFiles| == |multiset(jsonFiles)| == |multiset(listing)| == |listing|;
    forall name ensures name in listing <==> name in jsonFiles {
      assert name in listing <==> name in multiset(listing);
      assert name in jsonFiles <==> name in multiset(jsonFiles);
    }
  }

  /**
   * The totals the log reports, for the sorted file list: one entry per file,
   * and calories, distance and seconds are the sums of what
   * the entries' summaries contribute.
   */
  lemma TotalsAreSums(jsonFiles: seq<string>, load: string -> Option<Json>)
    requires |jsonFiles| >= 1 && Collect(jsonFiles, load).Running?
    ensures var t := Collect(jsonFiles, load).totals;
      var st := StatisticsOf(t, jsonFiles);
      |t.activities| == |jsonFiles|
      && st.totalCalories == SumCalories(t.activities)
      && st.totalDistance == SumDistance(t.activities)
      && st.totalSeconds == SumSeconds(t.activities)
  {
    CollectRunning(jsonFiles, load);
  }

  /** The log carries the file count and the activity entries as the loop left them. */
  lemma LogDocumentShape(createdAt: string, jsonFiles: seq<string>, t: Totals)
    requires |jsonFiles| >= 1
    ensures LogDocument(createdAt, jsonFiles, t).fields["metadata"].fields["total_activities"] == JInt(|jsonFiles|)
    ensures LogDocument(createdAt, jsonFiles, t).fields["activities"] == JArr(t.activities)
    ensures LogDocument(createdAt, jsonFiles, t).fields["metadata"].fields["statistics"]
      == StatisticsJson(StatisticsOf(t, jsonFiles))
  {
  }

  /** The average times the file count is the total distance; the range's ends are the first and last stems. */
  lemma StatisticsShape(jsonFiles: seq<string>, t: Totals)
    requires |jsonFiles| >= 1
    ensures var st := StatisticsOf(t, jsonFiles);
      st.averageDistance * (|jsonFiles| as real) == st.totalDistance
      && st.firstActivity == Stem(jsonFiles[0]) && st.lastActivity == Stem(jsonFiles[|jsonFiles| - 1])
  {
  }

  /**
   * Lines 103-112: the statistics dict has exactly the five keys, carries the
   * totals as accumulated, and its `HH:MM:SS` text is read back by the log's own
   * time reader as the total seconds.
   */
  lemma StatisticsJsonShape(st: Statistics)
    ensures StatisticsJson(st).fields.Keys ==
      {"total_distance_km", "total_time_formatted", "total_calories", "average_distance_per_run", "date_range"}
    ensures StatisticsJson(st).fields["total_distance_km"] == JReal(st.totalDistance)
    ensures StatisticsJson(st).fields["total_calories"] == JInt(st.totalCalories)
    ensures StatisticsJson(st).fields["average_distance_per_run"] == JReal(st.averageDistance)
  {
  }

  /** The `total_time_formatted` text is read back by the log's own time reader as the total seconds. */
  lemma StatisticsTimeReadsBack(st: Statistics)
    ensures StatisticsJson(st).fields["total_time_formatted"].JStr?
    ensures HmsSeconds(StatisticsJson(st).fields["total_time_formatted"].s) == Some(st.totalSeconds)
  {
    StatisticsTimeText(st);
    TotalReadsBack(FormatDuration(st.totalSeconds), st.totalSeconds);
  }

  lemma StatisticsTimeText(st: Statistics)
    ensures StatisticsJson(st).fields["total_time_formatted"] == JStr(FormatDuration(st.totalSeconds))
  {
  }

  lemma TotalReadsBack(text: string, total: int)
    requires text == FormatDuration(total)
    ensures HmsSeconds(text) == Some(total)
  {
    FormatDurationReadsBack(total);
  }

  /** The date range's files: the first sorted name is the least listed name, the last the greatest. */
  lemma DateRangeEnds(listing: seq<string>)
    requires |listing| >= 1
    ensures var jsonFiles := SortNames(listing);
      |jsonFiles| == |listing| && jsonFiles[0] in listing && jsonFiles[|jsonFiles| - 1] in listing
      && forall name :: name in listing ==> LexLe(jsonFiles[0], name) && LexLe(name, jsonFiles[|jsonFiles| - 1])
  {
    SortedSameNames(listing);
    SortedEnds(listing);
  }
}
