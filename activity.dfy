/**
 * Assembly of one activity document from the files of its date folder: the
 * metadata and, for each of the CSV, TCX and FIT formats, the first file of
 * that suffix, each parsed on its own so that one failure is recorded for
 * that source alone.
 */
module ActivityAssembly {
  import opened Wrappers
  import opened JsonValue
  import opened Paths
  import opened CsvSplits
  import opened TcxParser

  /** What the folder offers as `metadata.json`. */
  datatype MetadataFile =
    | NoMetadataFile             // the file does not exist
    | Unreadable(reason: string) // opening or decoding raised; the reason is `str(e)`
    | Loaded(value: Json)        // what `json.load` returned

  /** The parsers of the three formats, with the exceptions they raise as `Failure(str(e))`. */
  datatype Readers = Readers(
    readCsv: string -> Result<seq<Row>, string>,      // opening the file and `csv.DictReader`
    readTcx: string -> Result<TcxDocument, string>,   // opening the file and `ET.parse`
    parseFit: string -> Json)                         // `parse_fit`, which catches its own exceptions

  /** `type(value).__name__` for the values `json.load` can return. */
  function TypeName(value: Json): string {
    match value
    case JNull => "NoneType"
    case JBool(_) => "bool"
    case JInt(_) => "int"
    case JReal(_) => "float"
    case JStr(_) => "str"
    case JArr(_) => "list"
    case JObj(_) => "dict"
  }

  const MetadataErrorPrefix: string := "Failed to read metadata: "

  /**
   * Lines 246-256. The verbose report calls `.get` on the loaded value inside
   * the same `try`, so a value that is not a dict becomes an error entry there.
   */
  function MetadataValue(file: MetadataFile, verbose: bool): (m: Json)
    ensures file.NoMetadataFile? ==> m == EmptyObject
    ensures file.Unreadable? ==> m == ErrorObject(MetadataErrorPrefix + file.reason)
    ensures file.Loaded? && (file.value.JObj? || !verbose) ==> m == file.value
    ensures file.Loaded? && !file.value.JObj? && verbose ==> m.JObj? && "error" in m.fields
  {
    match file
    case NoMetadataFile => EmptyObject
    case Unreadable(reason) => ErrorObject(MetadataErrorPrefix + reason)
    case Loaded(value) =>
      if verbose && !value.JObj? then
        ErrorObject(MetadataErrorPrefix + "'" + TypeName(value) + "' object has no attribute 'get'")
      else
        value
  }

  /** Lines 261-263: the files whose suffix is `ext`, in listing order. */
  function FilesWithSuffix(files: seq<string>, ext: string): (r: seq<string>)
    ensures forall f :: f in r <==> f in files && Suffix(f) == ext
  {
    if |files| == 0 then []
    else
      var rest := FilesWithSuffix(files[1..], ext);
      if Suffix(files[0]) == ext then [files[0]] + rest else rest
  }

  /** The file `csv_files[0]` and its siblings denote: the earliest one with the suffix. */
  function FirstWithSuffix(files: seq<string>, ext: string): Option<string> {
    var matching := FilesWithSuffix(files, ext);
    if |matching| == 0 then None else Some(matching[0])
  }

  /** `{'file': name, 'data': data}` */
  function SourceEntry(name: string, data: Json): Json {
    JObj(map["file" := JStr(name), "data" := data])
  }

  function RecordsJson(records: seq<map<string, Json>>): (r: Json)
    ensures r.JArr? && |r.items| == |records|
  {
    JArr(seq(|records|, i requires 0 <= i < |records| => JObj(records[i])))
  }

  /** The dict `parse_csv_splits` returns. */
  function CsvJson(data: CsvData): Json {
    JObj(map["splits" := RecordsJson(data.splits), "summary" := JObj(data.summary)])
  }

  /** The dict `parse_tcx` returns. */
  function TcxJson(data: TcxData): Json {
    JObj(map[
      "activity_type" := TextOrNull(data.activityType),
      "activity_id" := TextOrNull(data.activityId),
      "laps" := RecordsJson(data.laps),
      "trackpoints" := RecordsJson(data.trackpoints)])
  }

  /** The dict `parse_tcx` returns for a document, as a function of its elements. */
  function TcxResult(doc: TcxDocument): Json {
    TcxJson(TcxData(
      if doc.activity.Some? then doc.activity.value.sport else None,
      if doc.activity.Some? then GetText(doc.activity.value.id) else None,
      LapRecords(doc.laps),
      CappedTrackpoints(doc.trackpoints)))
  }

  /** Lines 278-290: the csv entry for one file. */
  function CsvEntry(name: string, readers: Readers): Json {
    match readers.readCsv(name)
    case Failure(e) => ErrorObject(e)
    case Success(rows) => SourceEntry(name, CsvJson(CsvData(SplitRecords(rows), SummaryRecord(rows))))
  }

  /** Lines 293-305: the tcx entry for one file. */
  function TcxEntry(name: string, readers: Readers): Json {
    match readers.readTcx(name)
    case Failure(e) => ErrorObject(e)
    case Success(doc) => SourceEntry(name, TcxResult(doc))
  }

  /** Lines 308-320: the fit entry for one file; `parse_fit` reports its own failures inside the data. */
  function FitEntry(name: string, readers: Readers): Json {
    SourceEntry(name, readers.parseFit(name))
  }

  /** The `sources` dict, as the three steps of lines 277-320 leave it. */
  function Sources(files: seq<string>, readers: Readers): map<string, Json> {
    var csv := FirstWithSuffix(files, ".csv");
    var tcx := FirstWithSuffix(files, ".tcx");
    var fit := FirstWithSuffix(files, ".fit");
    var s0: map<string, Json> := map[];
    var s1 := if csv.Some? then s0["csv" := CsvEntry(csv.value, readers)] else s0;
    var s2 := if tcx.Some? then s1["tcx" := TcxEntry(tcx.value, readers)] else s1;
    if fit.Some? then s2["fit" := FitEntry(fit.value, readers)] else s2
  }

  /** The whole document `parse_activity` returns. */
  function ActivityDocument(date: string, parsedAt: string, metadata: MetadataFile, files: seq<string>,
                            verbose: bool, readers: Readers): Json {
    JObj(map[
      "date" := JStr(date),
      "parsed_at" := JStr(parsedAt),
      "metadata" := MetadataValue(metadata, verbose),
      "sources" := JObj(Sources(files, readers))])
  }

  /**
   * `parse_activity(date_folder, verbose)`, over what the folder holds: its
   * name, the clock reading, the metadata file and the listing of its files.
   */
  method ParseActivity(date: string, parsedAt: string, metadata: MetadataFile, files: seq<string>,
                       verbose: bool, readers: Readers) returns (doc: Json)
    ensures doc == ActivityDocument(date, parsedAt, metadata, files, verbose, readers)
  {
    var metadataValue := ReadMetadata(metadata, verbose);
    var sources := ParseSources(files, readers);
    doc := JObj(map[
      "date" := JStr(date),
      "parsed_at" := JStr(parsedAt),
      "metadata" := metadataValue,
      "sources" := JObj(sources)]);
  }

  /** Lines 246-256: the metadata value, replaced by an error object when reading or `.get` raises. */
  method ReadMetadata(metadata: MetadataFile, verbose: bool) returns (metadataValue: Json)
    ensures metadataValue == MetadataValue(metadata, verbose)
  {
    metadataValue := EmptyObject;
    match metadata {
      case NoMetadataFile =>
      case Unreadable(reason) =>
        metadataValue := ErrorObject(MetadataErrorPrefix + reason);
      case Loaded(value) =>
        metadataValue := value;
        if verbose && !value.JObj? {
          metadataValue := ErrorObject(MetadataErrorPrefix + "'" + TypeName(value) + "' object has no attribute 'get'");
        }
    }
  }

  /** Lines 258-320: the sources dict, filled one format after the other. */
  method ParseSources(files: seq<string>, readers: Readers) returns (sources: map<string, Json>)
    ensures sources == Sources(files, readers)
  {
    var csvFiles := FilesWithSuffix(files, ".csv");
    var tcxFiles := FilesWithSuffix(files, ".tcx");
    var fitFiles := FilesWithSuffix(files, ".fit");

    sources := map[];
    if |csvFiles| > 0 {
      var entry := ParseCsvSource(csvFiles[0], readers);
      sources := sources["csv" := entry];
    }
    if |tcxFiles| > 0 {
      var entry := ParseTcxSource(tcxFiles[0], readers);
      sources := sources["tcx" := entry];
    }
    if |fitFiles| > 0 {
      sources := sources["fit" := SourceEntry(fitFiles[0], readers.parseFit(fitFiles[0]))];
    }
  }

  /** Lines 278-290: the csv entry, or the error the reader raised. */
  method ParseCsvSource(name: string, readers: Readers) returns (entry: Json)
    ensures entry == CsvEntry(name, readers)
  {
    var rows := readers.readCsv(name);
    if rows.Failure? {
      entry := ErrorObject(rows.error);
    } else {
      var data := ParseCsvSplits(rows.value);
      entry := SourceEntry(name, CsvJson(data));
    }
  }

  /** Lines 293-305: the tcx entry, or the error the reader raised. */
  method ParseTcxSource(name: string, readers: Readers) returns (entry: Json)
    ensures entry == TcxEntry(name, readers)
  {
    var tree := readers.readTcx(name);
    if tree.Failure? {
      entry := ErrorObject(tree.error);
    } else {
      var data := ParseTcx(tree.value);
      entry := SourceEntry(name, TcxJson(data));
    }
  }

  /** The first file with a suffix is the earliest file in the listing that has it. */
  lemma {:induction false} FirstIsEarliest(files: seq<string>, ext: string)
    ensures FirstWithSuffix(files, ext).Some? <==> exists i :: 0 <= i < |files| && Suffix(files[i]) == ext
    ensures FirstWithSuffix(files, ext).Some? ==>
      exists i :: 0 <= i < |files| && files[i] == FirstWithSuffix(files, ext).value && Suffix(files[i]) == ext
        && forall j :: 0 <= j < i ==> Suffix(files[j]) != ext
    decreases |files|
  {
    if |files| > 0 {
      FirstIsEarliest(files[1..], ext);
      if Suffix(files[0]) != ext && FirstWithSuffix(files, ext).Some? {
        var i :| 0 <= i < |files| - 1 && files[1..][i] == FirstWithSuffix(files, ext).value
          && Suffix(files[1..][i]) == ext && forall j :: 0 <= j < i ==> Suffix(files[1..][j]) != ext;
        assert files[i + 1] == files[1..][i];
        forall j | 0 <= j < i + 1 ensures Suffix(files[j]) != ext {
          if j > 0 { assert files[j] == files[1..][j - 1]; }
        }
      }
      if exists i :: 0 <= i < |files| && Suffix(files[i]) == ext {
        var i :| 0 <= i < |files| && Suffix(files[i]) == ext;
        if i > 0 { assert files[1..][i - 1] == files[i]; }
      }
    }
  }

  /**
   * The document always has the same four keys, its date is the folder name,
   * and a source appears exactly when the folder holds a file of its suffix.
   */
  lemma DocumentShape(date: string, parsedAt: string, metadata: MetadataFile, files: seq<string>,
                      verbose: bool, readers: Readers)
    ensures var doc := ActivityDocument(date, parsedAt, metadata, files, verbose, readers);
      doc.JObj? && doc.fields.Keys == {"date", "parsed_at", "metadata", "sources"}
      && doc.fields["date"] == JStr(date)
    ensures var s := Sources(files, readers);
      s.Keys <= {"csv", "tcx", "fit"}
      && ("csv" in s <==> exists i :: 0 <= i < |files| && Suffix(files[i]) == ".csv")
      && ("tcx" in s <==> exists i :: 0 <= i < |files| && Suffix(files[i]) == ".tcx")
      && ("fit" in s <==> exists i :: 0 <= i < |files| && Suffix(files[i]) == ".fit")
  {
    SourceKeys(files, readers);
    FirstIsEarliest(files, ".csv");
    FirstIsEarliest(files, ".tcx");
    FirstIsEarliest(files, ".fit");
  }

  /** A source key is present exactly when the folder holds a file of its suffix. */
  lemma SourceKeys(files: seq<string>, readers: Readers)
    ensures var s := Sources(files, readers);
      s.Keys <= {"csv", "tcx", "fit"}
      && ("csv" in s <==> FirstWithSuffix(files, ".csv").Some?)
      && ("tcx" in s <==> FirstWithSuffix(files, ".tcx").Some?)
      && ("fit" in s <==> FirstWithSuffix(files, ".fit").Some?)
  {
  }

  /**
   * Per-source error capture: each entry is fixed by its own file and its own
   * parser, whatever the other parsers do; a parser failure is an error entry
   * for that source and nothing else.
   */
  lemma SourcesAreIndependent(files: seq<string>, readers: Readers, other: Readers)
    ensures readers.readCsv == other.readCsv && "csv" in Sources(files, readers) ==>
      "csv" in Sources(files, other) && Sources(files, readers)["csv"] == Sources(files, other)["csv"]
    ensures readers.readTcx == other.readTcx && "tcx" in Sources(files, readers) ==>
      "tcx" in Sources(files, other) && Sources(files, readers)["tcx"] == Sources(files, other)["tcx"]
    ensures readers.parseFit == other.parseFit && "fit" in Sources(files, readers) ==>
      "fit" in Sources(files, other) && Sources(files, readers)["fit"] == Sources(files, other)["fit"]
  {
  }

  /** What each source entry holds: the parsed data under the first file's name, or the parser's error. */
  lemma SourceEntries(files: seq<string>, readers: Readers)
    ensures var csv := FirstWithSuffix(files, ".csv"); csv.Some? ==>
      Sources(files, readers)["csv"] ==
        match readers.readCsv(csv.value)
        case Failure(e) => JObj(map["error" := JStr(e)])
        case Success(rows) => JObj(map["file" := JStr(csv.value),
          "data" := CsvJson(CsvData(SplitRecords(rows), SummaryRecord(rows)))])
    ensures var tcx := FirstWithSuffix(files, ".tcx"); tcx.Some? ==>
      Sources(files, readers)["tcx"] ==
        match readers.readTcx(tcx.value)
        case Failure(e) => JObj(map["error" := JStr(e)])
        case Success(doc) => JObj(map["file" := JStr(tcx.value), "data" := TcxResult(doc)])
    ensures var fit := FirstWithSuffix(files, ".fit"); fit.Some? ==>
      Sources(files, readers)["fit"] == JObj(map["file" := JStr(fit.value), "data" := readers.parseFit(fit.value)])
  {
  }
}
