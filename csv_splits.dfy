/**
 * The split table of an activity: the rows `csv.DictReader` yields are
 * stripped, cleaned (canonical keys, numeric coercion, empty cells dropped)
 * and partitioned into the ordered splits and the one "Summary" record.
 */
module CsvSplits {
  import opened Wrappers
  import opened Text
  import opened JsonValue

  /**
   * One row as `csv.DictReader` yields it: the (header, cell) items of the
   * row's dict, in header order. A cell is None when the line has fewer cells
   * than the header has names.
   */
  type Row = seq<(string, Option<string>)>

  /** Headers whose cells become floats when they parse. */
  const FloatFields: set<string> := {"GetDistance", "Elevation Gain", "Elev Loss"}

  /** Headers whose cells become ints when they parse. */
  const IntFields: set<string> :=
    {"Avg Run Cadence", "Max Run Cadence", "Avg Stride Length", "Avg HR", "Max HR", "Avg Temperature", "Calories"}

  /** `header.lower().replace(' ', '_')` */
  function CanonicalKey(header: string): string {
    ReplaceChar(Lower(header), ' ', '_')
  }

  /** The key of a header, character by character: spaces become underscores, capitals become small. */
  lemma {:induction false} CanonicalKeyAt(header: string, i: nat)
    requires i < |header|
    ensures |CanonicalKey(header)| == |header|
    ensures CanonicalKey(header)[i] == if header[i] == ' ' then '_' else LowerChar(header[i])
    decreases |header|
  {
    if i > 0 {
      CanonicalKeyAt(header[1..], i - 1);
    }
  }

  /** A canonical key holds no space and no capital letter, and canonicalising it again changes nothing. */
  lemma CanonicalKeyIsCanonical(header: string)
    ensures forall i :: 0 <= i < |CanonicalKey(header)| ==> CanonicalKey(header)[i] != ' ' && !('A' <= CanonicalKey(header)[i] <= 'Z')
    ensures CanonicalKey(CanonicalKey(header)) == CanonicalKey(header)
  {
    var key := CanonicalKey(header);
    forall i | 0 <= i < |key|
      ensures key[i] != ' ' && !('A' <= key[i] <= 'Z')
      ensures CanonicalKey(key)[i] == key[i]
    {
      CanonicalKeyAt(header, i);
      CanonicalKeyAt(key, i);
    }
    assert |CanonicalKey(key)| == |key| by {
      if |key| > 0 { CanonicalKeyAt(key, 0); }
    }
  }

  /** The cell survives cleaning: `not value or value == ''` is false. */
  predicate HasValue(cell: Option<string>) {
    cell.Some? && cell.value != ""
  }

  /**
   * The value stored for a non-empty cell: a float or an int for the numeric
   * headers when `float()` / `int()` accepts the text, the text itself otherwise.
   */
  function Coerce(header: string, text: string): (v: Json)
    ensures v.JReal? <==> header in FloatFields && ParseDecimal(text).Some?
    ensures v.JInt? <==> header !in FloatFields && header in IntFields && ParseInt(text).Some?
    ensures v.JReal? ==> ParseDecimal(text) == Some(v.r)
    ensures v.JInt? ==> ParseInt(text) == Some(v.i)
    ensures v.JStr? || v.JReal? || v.JInt?
    ensures v.JStr? ==> v.s == text
  {
    if header in FloatFields then
      match ParseDecimal(text)
      case Some(x) => JReal(x)
      case None => JStr(text)
    else if header in IntFields then
      match ParseInt(text)
      case Some(n) => JInt(n)
      case None => JStr(text)
    else
      JStr(text)
  }

  /** The record `_clean_split_row` has built after the items of `row`. */
  function Cleaned(row: Row): map<string, Json>
    decreases |row|
  {
    if |row| == 0 then map[]
    else
      var prev := Cleaned(row[..|row| - 1]);
      var (header, cell) := row[|row| - 1];
      if HasValue(cell) then prev[CanonicalKey(header) := Coerce(header, cell.value)] else prev
  }

  /** `_clean_split_row(row)` */
  method CleanSplitRow(row: Row) returns (cleaned: map<string, Json>)
    ensures cleaned == Cleaned(row)
  {
    cleaned := map[];
    var i := 0;
    while i < |row|
      invariant 0 <= i <= |row|
      invariant cleaned == Cleaned(row[..i])
    {
      var (header, cell) := row[i];
      assert row[..i + 1][..i] == row[..i];
      if cell.Some? && cell.value != "" {
        cleaned := cleaned[CanonicalKey(header) := Coerce(header, cell.value)];
      }
      i := i + 1;
    }
    assert row[..|row|] == row;
  }

  /** A key is in the cleaned record exactly when some header with a non-empty cell canonicalises to it. */
  lemma {:induction false} CleanedKeys(row: Row, key: string)
    ensures key in Cleaned(row) <==> exists i :: 0 <= i < |row| && HasValue(row[i].1) && CanonicalKey(row[i].0) == key
    decreases |row|
  {
    if |row| > 0 {
      var init := row[..|row| - 1];
      CleanedKeys(init, key);
      if exists i :: 0 <= i < |init| && HasValue(init[i].1) && CanonicalKey(init[i].0) == key {
        var i :| 0 <= i < |init| && HasValue(init[i].1) && CanonicalKey(init[i].0) == key;
        assert row[i] == init[i];
      }
      if exists i :: 0 <= i < |row| && HasValue(row[i].1) && CanonicalKey(row[i].0) == key {
        var i :| 0 <= i < |row| && HasValue(row[i].1) && CanonicalKey(row[i].0) == key;
        if i < |init| { assert init[i] == row[i]; }
      }
    }
  }

  /**
   * The value under a key comes from the last non-empty cell whose header
   * canonicalises to that key (for a dict row, the only one).
   */
  lemma {:induction false} CleanedValue(row: Row, i: nat)
    requires i < |row| && HasValue(row[i].1)
    requires forall j :: i < j < |row| && HasValue(row[j].1) ==> CanonicalKey(row[j].0) != CanonicalKey(row[i].0)
    ensures CanonicalKey(row[i].0) in Cleaned(row)
    ensures Cleaned(row)[CanonicalKey(row[i].0)] == Coerce(row[i].0, row[i].1.value)
    decreases |row|
  {
    if i < |row| - 1 {
      var init := row[..|row| - 1];
      assert init[i] == row[i];
      forall j | i < j < |init| && HasValue(init[j].1)
        ensures CanonicalKey(init[j].0) != CanonicalKey(init[i].0)
      {
        assert init[j] == row[j];
      }
      CleanedValue(init, i);
    }
  }

  /** No cleaned value is empty text. */
  lemma {:induction false} CleanedHasNoEmptyText(row: Row)
    ensures forall k :: k in Cleaned(row) ==> Cleaned(row)[k] != JStr("")
    decreases |row|
  {
    if |row| > 0 {
      CleanedHasNoEmptyText(row[..|row| - 1]);
    }
  }

  /** Line 33: every string cell is stripped; missing cells stay None. */
  function StripCells(row: Row): (stripped: Row)
    ensures |stripped| == |row|
  {
    if |row| == 0 then []
    else
      var (header, cell) := row[0];
      [(header, if cell.Some? then Some(Strip(cell.value)) else None)] + StripCells(row[1..])
  }

  lemma {:induction false} StripCellsAt(row: Row, i: nat)
    requires i < |row|
    ensures StripCells(row)[i].0 == row[i].0
    ensures StripCells(row)[i].1 == if row[i].1.Some? then Some(Strip(row[i].1.value)) else None
    decreases |row|
  {
    if i > 0 {
      StripCellsAt(row[1..], i - 1);
    }
  }

  /** `row.get(header)`: the cell under the first item with that header, None when there is none. */
  function Lookup(row: Row, header: string): Option<Option<string>> {
    if |row| == 0 then None
    else if row[0].0 == header then Some(row[0].1)
    else Lookup(row[1..], header)
  }

  /** A row is either a split or the summary, told apart by its "Split" cell. */
  datatype TaggedRow = SplitRow(cells: Row) | SummaryRow(cells: Row)

  /** The stripped row, tagged by `row.get('Split') == 'Summary'`. */
  function Classify(row: Row): TaggedRow {
    var stripped := StripCells(row);
    if Lookup(stripped, "Split") == Some(Some("Summary")) then SummaryRow(stripped) else SplitRow(stripped)
  }

  /** What `parse_csv_splits` returns. */
  datatype CsvData = CsvData(splits: seq<map<string, Json>>, summary: map<string, Json>)

  /** The cleaned split rows of `rows`, in table order. */
  function SplitRecords(rows: seq<Row>): seq<map<string, Json>>
    decreases |rows|
  {
    if |rows| == 0 then []
    else
      var prev := SplitRecords(rows[..|rows| - 1]);
      match Classify(rows[|rows| - 1])
      case SplitRow(cells) => prev + [Cleaned(cells)]
      case SummaryRow(_) => prev
  }

  /** The cleaned last "Summary" row of `rows`, `{}` when there is none. */
  function SummaryRecord(rows: seq<Row>): map<string, Json>
    decreases |rows|
  {
    if |rows| == 0 then map[]
    else
      match Classify(rows[|rows| - 1])
      case SummaryRow(cells) => Cleaned(cells)
      case SplitRow(_) => SummaryRecord(rows[..|rows| - 1])
  }

  /** `parse_csv_splits`, from the rows the reader yields. */
  method ParseCsvSplits(rows: seq<Row>) returns (data: CsvData)
    ensures data.splits == SplitRecords(rows)
    ensures data.summary == SummaryRecord(rows)
  {
    var splits: seq<map<string, Json>> := [];
    var summary: map<string, Json> := map[];
    var i := 0;
    while i < |rows|
      invariant 0 <= i <= |rows|
      invariant splits == SplitRecords(rows[..i])
      invariant summary == SummaryRecord(rows[..i])
    {
      assert rows[..i + 1][..i] == rows[..i];
      var stripped := StripCells(rows[i]);
      var cleaned := CleanSplitRow(stripped);
      if Lookup(stripped, "Split") == Some(Some("Summary")) {
        summary := cleaned;
      } else {
        splits := splits + [cleaned];
      }
      i := i + 1;
    }
    assert rows[..|rows|] == rows;
    data := CsvData(splits, summary);
  }

  /** Splits keep table order: the splits of two consecutive blocks of rows are the splits of each, concatenated. */
  lemma {:induction false} SplitRecordsAppend(a: seq<Row>, b: seq<Row>)
    ensures SplitRecords(a + b) == SplitRecords(a) + SplitRecords(b)
    decreases |b|
  {
    if |b| == 0 {
      assert a + b == a;
    } else {
      assert (a + b)[..|a + b| - 1] == a + b[..|b| - 1];
      SplitRecordsAppend(a, b[..|b| - 1]);
    }
  }

  /** Each row adds one split record exactly when it is not a "Summary" row. */
  lemma {:induction false} SplitRecordsCount(rows: seq<Row>)
    ensures |SplitRecords(rows)| + |SummaryPositions(rows)| == |rows|
    decreases |rows|
  {
    if |rows| > 0 {
      SplitRecordsCount(rows[..|rows| - 1]);
      SummaryPositionsOfPrefix(rows);
    }
  }

  /** The positions of the "Summary" rows. */
  function SummaryPositions(rows: seq<Row>): set<nat> {
    set i | 0 <= i < |rows| && Classify(rows[i]).SummaryRow?
  }

  lemma SummaryPositionsOfPrefix(rows: seq<Row>)
    requires |rows| > 0
    ensures var n := |rows| - 1;
      SummaryPositions(rows) == SummaryPositions(rows[..n]) + (if Classify(rows[n]).SummaryRow? then {n} else {})
  {
    var n := |rows| - 1;
    forall i | 0 <= i < n ensures rows[..n][i] == rows[i] { }
  }

  /** The summary is the cleaned last "Summary" row; later split rows do not touch it. */
  lemma {:induction false} SummaryIsLastSummaryRow(rows: seq<Row>, j: nat)
    requires j < |rows| && Classify(rows[j]).SummaryRow?
    requires forall k :: j < k < |rows| ==> Classify(rows[k]).SplitRow?
    ensures SummaryRecord(rows) == Cleaned(StripCells(rows[j]))
    decreases |rows|
  {
    if j < |rows| - 1 {
      var init := rows[..|rows| - 1];
      assert init[j] == rows[j];
      forall k | j < k < |init| ensures Classify(init[k]).SplitRow? {
        assert init[k] == rows[k];
      }
      SummaryIsLastSummaryRow(init, j);
    }
  }

  /** With no "Summary" row the summary is `{}` and every row is a split. */
  lemma {:induction false} NoSummaryRow(rows: seq<Row>)
    requires forall k :: 0 <= k < |rows| ==> Classify(rows[k]).SplitRow?
    ensures SummaryRecord(rows) == map[]
    ensures |SplitRecords(rows)| == |rows|
    decreases |rows|
  {
    if |rows| > 0 {
      var init := rows[..|rows| - 1];
      forall k | 0 <= k < |init| ensures Classify(init[k]).SplitRow? {
        assert init[k] == rows[k];
      }
      NoSummaryRow(init);
    }
  }

  /** Text left in a record is what `strip()` leaves of a non-empty cell. */
  predicate TextIsStripped(record: map<string, Json>) {
    forall k :: k in record && record[k].JStr? ==> record[k].s != "" && Strip(record[k].s) == record[k].s
  }

  lemma {:induction false} CleanedStrippedText(row: Row)
    requires forall i :: 0 <= i < |row| && row[i].1.Some? ==> Strip(row[i].1.value) == row[i].1.value
    ensures TextIsStripped(Cleaned(row))
    decreases |row|
  {
    if |row| > 0 {
      var init := row[..|row| - 1];
      forall i | 0 <= i < |init| && init[i].1.Some? ensures Strip(init[i].1.value) == init[i].1.value {
        assert init[i] == row[i];
      }
      CleanedStrippedText(init);
    }
  }

  lemma StripCellsStripped(row: Row)
    ensures forall i :: 0 <= i < |StripCells(row)| && StripCells(row)[i].1.Some? ==>
      Strip(StripCells(row)[i].1.value) == StripCells(row)[i].1.value
  {
    var s := StripCells(row);
    forall i | 0 <= i < |s| && s[i].1.Some? ensures Strip(s[i].1.value) == s[i].1.value {
      StripCellsAt(row, i);
      StripIdempotent(row[i].1.value);
    }
  }

  /** Every text value in every split record and in the summary is non-empty and already stripped. */
  lemma {:induction false} ParsedTextIsStripped(rows: seq<Row>)
    ensures forall s :: s in SplitRecords(rows) ==> TextIsStripped(s)
    ensures TextIsStripped(SummaryRecord(rows))
    decreases |rows|
  {
    if |rows| > 0 {
      var last := rows[|rows| - 1];
      ParsedTextIsStripped(rows[..|rows| - 1]);
      StripCellsStripped(last);
      CleanedStrippedText(StripCells(last));
    }
  }
}
