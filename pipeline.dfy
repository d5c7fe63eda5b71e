/**
 * The two stages together: an activity document as `parse_activity` writes
 * it is read by `aggregate_training_data` without raising, and the summary
 * it yields carries the parsed split summary and the parsed TCX counts.
 */
module Pipeline {
  import opened Wrappers
  import opened JsonValue
  import opened CsvSplits
  import opened TcxParser
  import opened ActivityAssembly
  import opened TrainingLog

  /** The entry a parsed split table adds to an activity summary, and its totals. */
  function ParsedCsvPart(data: CsvData): CsvPart {
    var summary := JObj(data.summary);
    CsvPart(map["summary" := summary, "splits" := RecordsJson(data.splits)],
            DistanceOf(summary), CaloriesOf(summary), SecondsOf(summary))
  }

  /** The `tcx_metadata` a parsed TCX document adds to an activity summary. */
  function ParsedTcxPart(data: TcxData): map<string, Json> {
    map["tcx_metadata" := JObj(map[
      "activity_type" := TextOrNull(data.activityType),
      "activity_id" := TextOrNull(data.activityId),
      "total_trackpoints" := JInt(|data.trackpoints|),
      "total_laps" := JInt(|data.laps|)])]
  }

  lemma CsvParsed(sources: map<string, Json>, name: string, data: CsvData)
    requires "csv" in sources && sources["csv"] == SourceEntry(name, CsvJson(data))
    ensures CsvSection(JObj(sources)) == Some(ParsedCsvPart(data))
  {
    CsvSectionIsDataSection(sources, name, CsvJson(data));
    ParsedDataSection(CsvJson(data), JObj(data.summary), RecordsJson(data.splits));
  }

  /** A csv entry holding data contributes what its data contributes. */
  lemma CsvSectionIsDataSection(sources: map<string, Json>, name: string, d: Json)
    requires "csv" in sources && sources["csv"] == SourceEntry(name, d)
    ensures CsvSection(JObj(sources)) == DataSection(d)
  {
    assert Contains(sources["csv"], "data") == Some(true);
  }

  lemma ParsedDataSection(d: Json, summary: Json, splits: Json)
    requires d == JObj(map["splits" := splits, "summary" := summary])
    ensures DataSection(d) == Some(CsvPart(map["summary" := summary, "splits" := splits],
      DistanceOf(summary), CaloriesOf(summary), SecondsOf(summary)))
  {
    assert Contains(d, "summary") == Some(true) && Contains(d, "splits") == Some(true);
    assert SummaryPart(d) == Some(CsvPart(map["summary" := summary], DistanceOf(summary),
      CaloriesOf(summary), SecondsOf(summary)));
  }

  lemma CsvNotParsed(sources: map<string, Json>)
    requires "csv" in sources ==> exists e :: sources["csv"] == ErrorObject(e)
    ensures CsvSection(JObj(sources)) == Some(NoCsvPart)
  {
    if "csv" in sources {
      var e :| sources["csv"] == ErrorObject(e);
      assert Contains(sources["csv"], "data") == Some(false);
    }
  }

  lemma TcxParsed(sources: map<string, Json>, name: string, data: TcxData)
    requires "tcx" in sources && sources["tcx"] == SourceEntry(name, TcxJson(data))
    ensures TcxSection(JObj(sources)) == Some(ParsedTcxPart(data))
  {
  }

  lemma TcxNotParsed(sources: map<string, Json>)
    requires "tcx" in sources ==> exists e :: sources["tcx"] == ErrorObject(e)
    ensures TcxSection(JObj(sources)) == Some(map[])
  {
    if "tcx" in sources {
      var e :| sources["tcx"] == ErrorObject(e);
      assert Contains(sources["tcx"], "data") == Some(false);
    }
  }

  /** What the csv source of a folder contributes once the aggregator reads it. */
  function CsvContribution(files: seq<string>, readers: Readers): CsvPart {
    var csv := FirstWithSuffix(files, ".csv");
    if csv.None? || readers.readCsv(csv.value).Failure? then NoCsvPart
    else
      var rows := readers.readCsv(csv.value).value;
      ParsedCsvPart(CsvData(SplitRecords(rows), SummaryRecord(rows)))
  }

  /** What the tcx source of a folder contributes once the aggregator reads it. */
  function TcxContribution(files: seq<string>, readers: Readers): map<string, Json> {
    var tcx := FirstWithSuffix(files, ".tcx");
    if tcx.None? || readers.readTcx(tcx.value).Failure? then map[]
    else
      var doc := readers.readTcx(tcx.value).value;
      ParsedTcxPart(TcxData(
        if doc.activity.Some? then doc.activity.value.sport else None,
        if doc.activity.Some? then GetText(doc.activity.value.id) else None,
        LapRecords(doc.laps), CappedTrackpoints(doc.trackpoints)))
  }

  lemma SectionsOfSources(files: seq<string>, readers: Readers)
    ensures CsvSection(JObj(Sources(files, readers))) == Some(CsvContribution(files, readers))
    ensures TcxSection(JObj(Sources(files, readers))) == Some(TcxContribution(files, readers))
  {
    SourceEntries(files, readers);
    CsvSectionOfSources(files, readers, Sources(files, readers));
    TcxSectionOfSources(files, readers, Sources(files, readers));
  }

  lemma CsvSectionOfSources(files: seq<string>, readers: Readers, sources: map<string, Json>)
    requires "csv" in sources <==> FirstWithSuffix(files, ".csv").Some?
    requires var csv := FirstWithSuffix(files, ".csv"); csv.Some? ==>
      sources["csv"] == match readers.readCsv(csv.value)
        case Failure(e) => JObj(map["error" := JStr(e)])
        case Success(rows) => JObj(map["file" := JStr(csv.value),
          "data" := CsvJson(CsvData(SplitRecords(rows), SummaryRecord(rows)))])
    ensures CsvSection(JObj(sources)) == Some(CsvContribution(files, readers))
  {
    var csv := FirstWithSuffix(files, ".csv");
    if csv.None? {
      CsvNotParsed(sources);
    } else {
      match readers.readCsv(csv.value)
      case Failure(e) =>
        assert sources["csv"] == ErrorObject(e);
        CsvNotParsed(sources);
      case Success(rows) =>
        CsvParsed(sources, csv.value, CsvData(SplitRecords(rows), SummaryRecord(rows)));
    }
  }

  lemma TcxSectionOfSources(files: seq<string>, readers: Readers, sources: map<string, Json>)
    requires "tcx" in sources <==> FirstWithSuffix(files, ".tcx").Some?
    requires var tcx := FirstWithSuffix(files, ".tcx"); tcx.Some? ==>
      sources["tcx"] == match readers.readTcx(tcx.value)
        case Failure(e) => JObj(map["error" := JStr(e)])
        case Success(doc) => JObj(map["file" := JStr(tcx.value), "data" := TcxResult(doc)])
    ensures TcxSection(JObj(sources)) == Some(TcxContribution(files, readers))
  {
    var tcx := FirstWithSuffix(files, ".tcx");
    if tcx.None? {
      TcxNotParsed(sources);
    } else {
      match readers.readTcx(tcx.value)
      case Failure(e) =>
        assert sources["tcx"] == ErrorObject(e);
        TcxNotParsed(sources);
      case Success(doc) =>
        TcxParsed(sources, tcx.value, TcxData(
          if doc.activity.Some? then doc.activity.value.sport else None,
          if doc.activity.Some? then GetText(doc.activity.value.id) else None,
          LapRecords(doc.laps), CappedTrackpoints(doc.trackpoints)));
    }
  }

  /**
   * Every document `parse_activity` writes is summarized without raising:
   * the summary holds the folder name, the sources verbatim, the parsed split
   * summary and splits when the csv parsed, the lap count and the capped
   * trackpoint count when the tcx parsed, and adds the split summary's totals.
   */
  lemma ParsedActivitySummarizes(date: string, parsedAt: string, metadata: MetadataFile, files: seq<string>,
                                 verbose: bool, readers: Readers)
    ensures var s := SummarizeFile(Some(ActivityDocument(date, parsedAt, metadata, files, verbose, readers)));
      s.Some? && s.value.entry.JObj?
    ensures var s := SummarizeFile(Some(ActivityDocument(date, parsedAt, metadata, files, verbose, readers)));
      var csv := CsvContribution(files, readers);
      var tcx := TcxContribution(files, readers);
      s.Some? && s.value.entry.JObj?
      && s.value.entry.fields == map["date" := JStr(date), "metadata" := MetadataValue(metadata, verbose),
           "raw_data_files" := JObj(Sources(files, readers))] + csv.fields + tcx
      && s.value.distance == csv.distance && s.value.calories == csv.calories && s.value.seconds == csv.seconds
  {
    SectionsOfSources(files, readers);
  }

  /** The counts the log records for a parsed TCX document: every lap, and at most 10000 trackpoints. */
  lemma LoggedTcxCounts(files: seq<string>, readers: Readers)
    requires FirstWithSuffix(files, ".tcx").Some?
    requires readers.readTcx(FirstWithSuffix(files, ".tcx").value).Success?
    ensures var doc := readers.readTcx(FirstWithSuffix(files, ".tcx").value).value;
      var m := TcxContribution(files, readers)["tcx_metadata"];
      m.JObj? && m.fields["total_laps"] == JInt(|doc.laps|)
      && m.fields["total_trackpoints"].JInt?
      && 0 <= m.fields["total_trackpoints"].i <= MaxTrackpoints
      && m.fields["total_trackpoints"].i <= |doc.trackpoints|
  {
    var doc := readers.readTcx(FirstWithSuffix(files, ".tcx").value).value;
    CapKeepsPrefix(doc.trackpoints);
    KeptRecordsAreUseful(doc.trackpoints);
  }
}
