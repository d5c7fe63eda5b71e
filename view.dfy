/** The text helpers of the training-data viewer: reading a duration and tidying a pace. */
module TrainingView {
  import opened Wrappers
  import opened Text
  import opened TrainingLog
  import opened JsonValue

  /**
   * `parse_time_to_seconds`: 0 for a missing, empty or "N/A" value;
   * `H:M:S` or `M:S` read as seconds, or 0 when a part is not an integer;
   * None (the function falls off its end) for any other number of parts.
   */
  function ParseTimeToSeconds(timeStr: Option<string>): Option<int> {
    if timeStr.None? || timeStr.value == "" || timeStr.value == "N/A" then Some(0)
    else TimeParts(Split(Strip(timeStr.value), ':'))
  }

  /** Lines 18-25, on the parts of the stripped text; a part that is not an integer makes it 0. */
  function TimeParts(parts: seq<string>): Option<int> {
    if |parts| == 3 then Some(OrZero(HoursMinutesSeconds(parts[0], parts[1], parts[2])))
    else if |parts| == 2 then Some(OrZero(MinutesSeconds(parts[0], parts[1])))
    else None
  }

  function OrZero(n: Option<int>): int {
    if n.Some? then n.value else 0
  }

  /** `int(h) * 3600 + int(m) * 60 + int(s)` */
  function HoursMinutesSeconds(h: string, m: string, s: string): Option<int> {
    if ParseInt(h).Some? && ParseInt(m).Some? && ParseInt(s).Some? then
      Some(ParseInt(h).value * 3600 + ParseInt(m).value * 60 + ParseInt(s).value)
    else
      None
  }

  /** `int(m) * 60 + int(s)` */
  function MinutesSeconds(m: string, s: string): Option<int> {
    if ParseInt(m).Some? && ParseInt(s).Some? then Some(ParseInt(m).value * 60 + ParseInt(s).value) else None
  }

  /** `format_pace`: "N/A" for a missing or empty value, otherwise the value stripped. */
  function FormatPace(paceStr: Option<string>): string {
    if paceStr.None? || paceStr.value == "" then "N/A" else Strip(paceStr.value)
  }

  /** A text holding a colon is neither empty nor "N/A". */
  lemma NotFalsy(text: string, i: nat)
    requires i < |text| && text[i] == ':'
    ensures text != "" && text != "N/A"
  {
    assert ':' !in "N/A";
  }

  /** Stripping keeps only characters of the original. */
  lemma StripKeepsCharacters(t: string)
    ensures forall c :: c in Strip(t) ==> c in t
  {
    var u := TrimStart(t);
    TrimStartTail(t);
    TrimEndHead(u);
    var r := Strip(t);
    assert r == TrimEnd(u);
    forall c | c in r ensures c in t {
      var i :| 0 <= i < |r| && r[i] == c;
      assert u[i] == c;
      assert t[|t| - |u| + i] == c;
    }
  }

  /** A text holding a colon reads as what its stripped parts read as. */
  lemma ReadTimeText(text: string, i: nat)
    requires i < |text| && text[i] == ':'
    ensures ParseTimeToSeconds(Some(text)) == TimeParts(Split(Strip(text), ':'))
  {
    NotFalsy(text, i);
  }

  /** Colon-free fields joined by colons, with whitespace around the whole, split back into the fields. */
  lemma PaddedFields(pre: string, parts: seq<string>, post: string)
    requires AllSpace(pre) && AllSpace(post) && |parts| >= 1
    requires forall k :: 0 <= k < |parts| ==> ':' !in parts[k]
    requires Trimmed(parts[0]) && Trimmed(parts[|parts| - 1]) && |parts[0]| >= 1 && |parts[|parts| - 1]| >= 1
    ensures Split(Strip(pre + Join(parts, ':') + post), ':') == parts
  {
    var text := Join(parts, ':');
    JoinEnds(parts, ':');
    StripPadded(pre, text, post);
    SplitJoin(parts, ':');
  }

  /** The joined text starts with the first part and ends with the last. */
  lemma {:induction false} JoinEnds(parts: seq<string>, sep: char)
    requires |parts| >= 1 && |parts[0]| >= 1 && |parts[|parts| - 1]| >= 1
    requires Trimmed(parts[0]) && Trimmed(parts[|parts| - 1])
    ensures |Join(parts, sep)| >= 1 && Trimmed(Join(parts, sep))
    ensures Join(parts, sep)[0] == parts[0][0]
    ensures Join(parts, sep)[|Join(parts, sep)| - 1] == parts[|parts| - 1][|parts[|parts| - 1]| - 1]
    decreases |parts|
  {
    if |parts| > 1 {
      var rest := parts[1..];
      assert rest[|rest| - 1] == parts[|parts| - 1];
      if |rest| > 1 {
        assert rest[0] == parts[1];
        JoinLast(rest, sep);
      } else {
        assert Join(rest, sep) == parts[1];
      }
    }
  }

  /** The joined text ends with the last part. */
  lemma {:induction false} JoinLast(parts: seq<string>, sep: char)
    requires |parts| >= 1 && |parts[|parts| - 1]| >= 1
    ensures |Join(parts, sep)| >= 1
    ensures Join(parts, sep)[|Join(parts, sep)| - 1] == parts[|parts| - 1][|parts[|parts| - 1]| - 1]
    decreases |parts|
  {
    if |parts| > 1 {
      assert parts[1..][|parts| - 2] == parts[|parts| - 1];
      JoinLast(parts[1..], sep);
    }
  }

  lemma ThreeIntegers(a: string, b: string, c: string, h: int, m: int, s: int)
    requires ParseInt(a) == Some(h) && ParseInt(b) == Some(m) && ParseInt(c) == Some(s)
    ensures TimeParts([a, b, c]) == Some(h * 3600 + m * 60 + s)
  {
    var parts := [a, b, c];
    assert |parts| == 3 && parts[0] == a && parts[1] == b && parts[2] == c;
  }

  lemma TwoIntegers(a: string, b: string, m: int, s: int)
    requires ParseInt(a) == Some(m) && ParseInt(b) == Some(s)
    ensures TimeParts([a, b]) == Some(m * 60 + s)
  {
    var parts := [a, b];
    assert |parts| == 2 && parts[0] == a && parts[1] == b;
  }

  /**
   * Three integer fields, with any whitespace around the whole text, read as
   * h*3600 + m*60 + s (line 20).
   */
  lemma ThreePartTime(pre: string, a: string, b: string, c: string, post: string, h: int, m: int, s: int)
    requires AllSpace(pre) && AllSpace(post)
    requires ':' !in a && ':' !in b && ':' !in c && Trimmed(a) && Trimmed(c) && |a| >= 1 && |c| >= 1
    requires ParseInt(a) == Some(h) && ParseInt(b) == Some(m) && ParseInt(c) == Some(s)
    ensures ParseTimeToSeconds(Some(pre + Join([a, b, c], ':') + post)) == Some(h * 3600 + m * 60 + s)
  {
    var padded := pre + Join([a, b, c], ':') + post;
    PaddedFields(pre, [a, b, c], post);
    assert Join([a, b, c], ':')[|a|] == ':';
    assert padded[|pre| + |a|] == ':';
    ReadTimeText(padded, |pre| + |a|);
    ThreeIntegers(a, b, c, h, m, s);
  }

  /** Two integer fields, with any whitespace around the whole text, read as m*60 + s (line 23). */
  lemma TwoPartTime(pre: string, a: string, b: string, post: string, m: int, s: int)
    requires AllSpace(pre) && AllSpace(post)
    requires ':' !in a && ':' !in b && Trimmed(a) && Trimmed(b) && |a| >= 1 && |b| >= 1
    requires ParseInt(a) == Some(m) && ParseInt(b) == Some(s)
    ensures ParseTimeToSeconds(Some(pre + Join([a, b], ':') + post)) == Some(m * 60 + s)
  {
    var padded := pre + Join([a, b], ':') + post;
    PaddedFields(pre, [a, b], post);
    assert Join([a, b], ':')[|a|] == ':';
    assert padded[|pre| + |a|] == ':';
    ReadTimeText(padded, |pre| + |a|);
    TwoIntegers(a, b, m, s);
  }

  /**
   * A text whose stripped form has three colon-separated parts, one of which is
   * not an integer (an empty part included), reads as 0: the `except` of line 25.
   */
  lemma ThreePartsNotIntegers(text: string)
    requires var parts := Split(Strip(text), ':');
      |parts| == 3 && (ParseInt(parts[0]).None? || ParseInt(parts[1]).None? || ParseInt(parts[2]).None?)
    ensures ParseTimeToSeconds(Some(text)) == Some(0)
  {
    var parts := Split(Strip(text), ':');
    HoldsColon(text);
    NotAllIntegers(parts[0], parts[1], parts[2]);
    assert parts == [parts[0], parts[1], parts[2]];
  }

  /** Likewise a text with two parts, one of which is not an integer, reads as 0. */
  lemma TwoPartsNotIntegers(text: string)
    requires var parts := Split(Strip(text), ':');
      |parts| == 2 && (ParseInt(parts[0]).None? || ParseInt(parts[1]).None?)
    ensures ParseTimeToSeconds(Some(text)) == Some(0)
  {
    var parts := Split(Strip(text), ':');
    HoldsColon(text);
    assert parts == [parts[0], parts[1]];
  }

  /** More than one part: the text is read through its stripped parts. */
  lemma HoldsColon(text: string)
    requires |Split(Strip(text), ':')| >= 2
    ensures ParseTimeToSeconds(Some(text)) == TimeParts(Split(Strip(text), ':'))
  {
    SeparatorPresent(Strip(text), ':');
    StripKeepsCharacters(text);
    var i :| 0 <= i < |text| && text[i] == ':';
    ReadTimeText(text, i);
  }

  /** ":5:3" has an empty first part, which `int()` rejects, so it reads as 0. */
  lemma EmptyPartReadsZero()
    ensures ParseTimeToSeconds(Some(":5:3")) == Some(0)
  {
    var text := ":5:3";
    NotSpace(text[0]);
    NotSpace(text[3]);
    StripTrimmed(text);
    assert text == "" + [':'] + ("5" + [':'] + "3");
    SplitAfterPiece("", ':', "5" + [':'] + "3");
    SplitAfterPiece("5", ':', "3");
    assert ':' !in "3";
    assert Split(text, ':') == ["", "5", "3"];
    assert Strip("") == "";
    ThreePartsNotIntegers(text);
  }

  /**
   * A two-part "M:S" time, which the viewer reads as m*60 + s, adds nothing to
   * the training log's total time, whose reader only counts three parts.
   */
  lemma LogIgnoresTwoPartTimes(pre: string, a: string, b: string, post: string, m: int, s: int,
                               fields: map<string, Json>)
    requires AllSpace(pre) && AllSpace(post)
    requires ':' !in a && ':' !in b && Trimmed(a) && Trimmed(b) && |a| >= 1 && |b| >= 1
    requires ParseInt(a) == Some(m) && ParseInt(b) == Some(s)
    ensures ParseTimeToSeconds(Some(pre + Join([a, b], ':') + post)) == Some(m * 60 + s)
    ensures SecondsOf(JObj(fields["time" := JStr(pre + Join([a, b], ':') + post)])) == 0
  {
    TwoPartTime(pre, a, b, post, m, s);
    PaddedFields(pre, [a, b], post);
    TimeCoercesOrZero(fields, JStr(pre + Join([a, b], ':') + post));
  }

  lemma NotAllIntegers(a: string, b: string, c: string)
    requires ParseInt(a).None? || ParseInt(b).None? || ParseInt(c).None?
    ensures TimeParts([a, b, c]) == Some(0)
  {
    var parts := [a, b, c];
    assert |parts| == 3 && parts[0] == a && parts[1] == b && parts[2] == c;
  }

  /** A text without a colon that is not empty and not "N/A" has one part and reads as None. */
  lemma OnePartIsNone(text: string)
    requires ':' !in text && text != "" && text != "N/A"
    ensures ParseTimeToSeconds(Some(text)) == None
  {
    StripKeepsCharacters(text);
    assert ':' !in Strip(text);
    assert Split(Strip(text), ':') == [Strip(text)];
  }

  /** Four or more colon-separated parts read as None as well. */
  lemma ManyPartsAreNone(text: string)
    requires text != "" && text != "N/A" && |Split(Strip(text), ':')| > 3
    ensures ParseTimeToSeconds(Some(text)) == None
  {
  }

  /** Where the training log's reader counts a time, the viewer reads the same number of seconds. */
  lemma AgreesWithLogReader(text: string)
    requires HmsSeconds(text).Some?
    ensures ParseTimeToSeconds(Some(text)) == HmsSeconds(text)
  {
    HoldsColon(text);
    PartsAgree(Split(Strip(text), ':'));
  }

  /** More than one part comes only from a text holding the separator. */
  lemma SeparatorPresent(t: string, sep: char)
    requires |Split(t, sep)| >= 2
    ensures sep in t
  {
  }

  /** On three integer parts both readers compute h*3600 + m*60 + s. */
  lemma PartsAgree(parts: seq<string>)
    requires HmsParts(parts).Some?
    ensures TimeParts(parts) == HmsParts(parts)
  {
  }

  /** The viewer reads a total the training log formatted back as that total. */
  lemma ReadsFormattedDuration(total: int)
    ensures ParseTimeToSeconds(Some(FormatDuration(total))) == Some(total)
  {
    FormatDurationReadsBack(total);
    AgreesWithLogReader(FormatDuration(total));
  }

  /** A present, non-empty pace is returned without the whitespace around it. */
  lemma PaceRecoversText(pre: string, t: string, post: string)
    requires AllSpace(pre) && AllSpace(post) && Trimmed(t) && |t| >= 1
    ensures FormatPace(Some(pre + t + post)) == t
  {
    StripPadded(pre, t, post);
  }

  /** Formatting a pace twice gives the first result, unless that result was empty. */
  lemma PaceIdempotent(paceStr: Option<string>)
    ensures FormatPace(paceStr) != "" ==> FormatPace(Some(FormatPace(paceStr))) == FormatPace(paceStr)
    ensures FormatPace(paceStr) == "N/A" || FormatPace(paceStr) == Strip(paceStr.value)
  {
    if paceStr.Some? && paceStr.value != "" {
      PresentPaceIdempotent(paceStr.value);
    } else {
      NotApplicableIsStripped();
    }
  }

  lemma PresentPaceIdempotent(text: string)
    requires text != ""
    ensures FormatPace(Some(text)) == Strip(text)
    ensures Strip(text) != "" ==> FormatPace(Some(Strip(text))) == Strip(text)
  {
    StripIdempotent(text);
  }

  /** "N/A" has no whitespace to strip. */
  lemma NotApplicableIsStripped()
    ensures FormatPace(Some("N/A")) == "N/A"
  {
    NotSpace('N');
    NotSpace('A');
    PaceOfTrimmed("N/A");
  }

  /** A non-empty text without surrounding whitespace is displayed as it is. */
  lemma PaceOfTrimmed(t: string)
    requires Trimmed(t) && t != ""
    ensures FormatPace(Some(t)) == t
  {
    StripTrimmed(t);
  }
}
