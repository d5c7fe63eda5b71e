/**
 * The few Python string primitives the parser, the aggregator and the viewer
 * rely on: `str.strip()`, `str.lower()`, `str.split(sep)`, `int(text)` and
 * `float(text)` on decimal text, and truncation of a float to an int.
 */
module Text {
  import opened Wrappers

  /** `str.isspace()` for one character: the characters `strip()`, `int()` and `float()` skip. */
  predicate IsSpace(c: char) {
    InSpaceRanges(c, |SpaceRanges|)
  }

  /** The code-point ranges, bounds included, of the characters for which `str.isspace()` holds. */
  const SpaceRanges: seq<(char, char)> := [
    ('\U{0009}', '\U{000D}'), ('\U{001C}', '\U{0020}'), ('\U{0085}', '\U{0085}'), ('\U{00A0}', '\U{00A0}'),
    ('\U{1680}', '\U{1680}'), ('\U{2000}', '\U{200A}'), ('\U{2028}', '\U{2029}'), ('\U{202F}', '\U{202F}'),
    ('\U{205F}', '\U{205F}'), ('\U{3000}', '\U{3000}')]

  /** `c` lies in one of the first `k` ranges. */
  predicate InSpaceRanges(c: char, k: nat)
    requires k <= |SpaceRanges|
    decreases k
  {
    k > 0 && ((SpaceRanges[k - 1].0 <= c <= SpaceRanges[k - 1].1) || InSpaceRanges(c, k - 1))
  }

  /** Visible ASCII characters (digits, signs, the point, the colon, letters) are not whitespace. */
  lemma NotSpace(c: char)
    requires '!' <= c <= '~'
    ensures !IsSpace(c)
  {
    OutsideSpaceRanges(c, |SpaceRanges|);
  }

  lemma {:induction false} OutsideSpaceRanges(c: char, k: nat)
    requires '!' <= c <= '~' && k <= |SpaceRanges|
    ensures !InSpaceRanges(c, k)
    decreases k
  {
    if k > 0 {
      OutsideSpaceRanges(c, k - 1);
    }
  }

  predicate AllSpace(s: string) {
    forall i :: 0 <= i < |s| ==> IsSpace(s[i])
  }

  /** Neither end of `s` is whitespace (the shape of every result of `Strip`). */
  predicate Trimmed(s: string) {
    |s| == 0 || (!IsSpace(s[0]) && !IsSpace(s[|s| - 1]))
  }

  /** `str.lstrip()` */
  function TrimStart(s: string): string
    decreases |s|
  {
    if |s| > 0 && IsSpace(s[0]) then TrimStart(s[1..]) else s
  }

  /** `str.rstrip()` */
  function TrimEnd(s: string): string
    decreases |s|
  {
    if |s| > 0 && IsSpace(s[|s| - 1]) then TrimEnd(s[..|s| - 1]) else s
  }

  /** `lstrip()` keeps a tail of the text, and that tail does not start with whitespace. */
  lemma {:induction false} TrimStartTail(s: string)
    ensures |TrimStart(s)| <= |s| && TrimStart(s) == s[|s| - |TrimStart(s)|..]
    ensures |TrimStart(s)| > 0 ==> !IsSpace(TrimStart(s)[0])
    decreases |s|
  {
    if |s| > 0 && IsSpace(s[0]) {
      TrimStartTail(s[1..]);
    }
  }

  /** `rstrip()` keeps a head of the text, and that head does not end with whitespace. */
  lemma {:induction false} TrimEndHead(s: string)
    ensures |TrimEnd(s)| <= |s| && TrimEnd(s) == s[..|TrimEnd(s)|]
    ensures |TrimEnd(s)| > 0 ==> !IsSpace(TrimEnd(s)[|TrimEnd(s)| - 1])
    decreases |s|
  {
    if |s| > 0 && IsSpace(s[|s| - 1]) {
      TrimEndHead(s[..|s| - 1]);
    }
  }

  /** `str.strip()` with no argument. */
  function Strip(s: string): (r: string)
    ensures Trimmed(r)
  {
    var t := TrimStart(s);
    TrimStartTail(s);
    TrimEndHead(t);
    var r := TrimEnd(t);
    assert |r| > 0 ==> r[0] == t[0];
    r
  }

  lemma {:induction false} TrimStartSkipsSpace(pre: string, x: string)
    requires AllSpace(pre)
    ensures TrimStart(pre + x) == TrimStart(x)
    decreases |pre|
  {
    if |pre| > 0 {
      assert (pre + x)[0] == pre[0];
      assert (pre + x)[1..] == pre[1..] + x;
      TrimStartSkipsSpace(pre[1..], x);
    } else {
      assert pre + x == x;
    }
  }

  lemma {:induction false} TrimEndSkipsSpace(x: string, post: string)
    requires AllSpace(post)
    ensures TrimEnd(x + post) == TrimEnd(x)
    decreases |post|
  {
    if |post| > 0 {
      assert (x + post)[|x + post| - 1] == post[|post| - 1];
      assert (x + post)[..|x + post| - 1] == x + post[..|post| - 1];
      TrimEndSkipsSpace(x, post[..|post| - 1]);
    } else {
      assert x + post == x;
    }
  }

  /**
   * `strip()` removes exactly the surrounding whitespace: padding a trimmed
   * text with whitespace on either side and stripping gives the text back.
   */
  lemma StripPadded(pre: string, t: string, post: string)
    requires AllSpace(pre) && AllSpace(post) && Trimmed(t)
    ensures Strip(pre + t + post) == t
  {
    assert pre + t + post == pre + (t + post);
    TrimStartSkipsSpace(pre, t + post);
    if |t| == 0 {
      assert t + post == post;
      TrimStartSkipsSpace(post, "");
      assert post + "" == post;
    } else {
      assert TrimStart(t + post) == t + post;
      TrimEndSkipsSpace(t, post);
    }
  }

  lemma StripTrimmed(t: string)
    requires Trimmed(t)
    ensures Strip(t) == t
  {
    StripPadded("", t, "");
    assert "" + t + "" == t;
  }

  /** Stripping twice is stripping once. */
  lemma StripIdempotent(s: string)
    ensures Strip(Strip(s)) == Strip(s)
  {
    StripTrimmed(Strip(s));
  }

  /** `str.lower()` on one character (ASCII letters only). */
  function LowerChar(c: char): char {
    if 'A' <= c <= 'Z' then (c as int + 32) as char else c
  }

  /** `str.lower()` */
  function Lower(s: string): (r: string)
    ensures |r| == |s|
  {
    if |s| == 0 then "" else [LowerChar(s[0])] + Lower(s[1..])
  }

  /** `str.replace(a, b)` for single characters. */
  function ReplaceChar(s: string, a: char, b: char): (r: string)
    ensures |r| == |s|
  {
    if |s| == 0 then "" else [if s[0] == a then b else s[0]] + ReplaceChar(s[1..], a, b)
  }

  /** Position of the first `c` in `s`. */
  function IndexOf(s: string, c: char): (i: nat)
    requires c in s
    ensures i < |s| && s[i] == c && c !in s[..i]
  {
    if s[0] == c then 0 else 1 + IndexOf(s[1..], c)
  }

  /** `s.split(sep)`: the pieces between separators, never an empty list. */
  function Split(s: string, sep: char): (parts: seq<string>)
    ensures |parts| >= 1
    ensures forall k :: 0 <= k < |parts| ==> sep !in parts[k]
    decreases |s|
  {
    if sep in s then
      var i := IndexOf(s, sep);
      [s[..i]] + Split(s[i + 1..], sep)
    else
      [s]
  }

  /** `sep.join(parts)` */
  function Join(parts: seq<string>, sep: char): string
    requires |parts| >= 1
  {
    if |parts| == 1 then parts[0] else parts[0] + [sep] + Join(parts[1..], sep)
  }

  lemma {:induction false} IndexAfterPiece(a: string, sep: char, rest: string)
    requires sep !in a
    ensures sep in a + [sep] + rest && IndexOf(a + [sep] + rest, sep) == |a|
    decreases |a|
  {
    var s := a + [sep] + rest;
    assert s[|a|] == sep;
    if |a| > 0 {
      assert s[0] == a[0];
      assert s[1..] == a[1..] + [sep] + rest;
      IndexAfterPiece(a[1..], sep, rest);
    }
  }

  lemma SplitAfterPiece(a: string, sep: char, rest: string)
    requires sep !in a
    ensures Split(a + [sep] + rest, sep) == [a] + Split(rest, sep)
  {
    var s := a + [sep] + rest;
    IndexAfterPiece(a, sep, rest);
    assert s[..|a|] == a;
    assert s[|a| + 1..] == rest;
  }

  /** Splitting then joining gives the text back. */
  lemma {:induction false} JoinSplit(s: string, sep: char)
    ensures Join(Split(s, sep), sep) == s
    decreases |s|
  {
    if sep in s {
      var i := IndexOf(s, sep);
      var rest := s[i + 1..];
      var parts := Split(s, sep);
      assert parts == [s[..i]] + Split(rest, sep);
      assert parts[1..] == Split(rest, sep);
      assert Join(parts, sep) == s[..i] + [sep] + Join(Split(rest, sep), sep);
      JoinSplit(rest, sep);
      assert s == s[..i] + [sep] + rest;
    }
  }

  /** Joining separator-free pieces then splitting gives the pieces back. */
  lemma {:induction false} SplitJoin(parts: seq<string>, sep: char)
    requires |parts| >= 1
    requires forall k :: 0 <= k < |parts| ==> sep !in parts[k]
    ensures Split(Join(parts, sep), sep) == parts
    decreases |parts|
  {
    if |parts| > 1 {
      var tail := parts[1..];
      var rest := Join(tail, sep);
      assert Join(parts, sep) == parts[0] + [sep] + rest;
      forall k | 0 <= k < |tail| ensures sep !in tail[k] {
        assert tail[k] == parts[k + 1];
      }
      SplitJoin(tail, sep);
      SplitAfterPiece(parts[0], sep, rest);
      assert parts == [parts[0]] + tail;
    }
  }

  predicate IsDigit(c: char) { '0' <= c <= '9' }

  predicate AllDigits(s: string) {
    forall i :: 0 <= i < |s| ==> IsDigit(s[i])
  }

  function DigitValue(c: char): nat
    requires IsDigit(c)
  {
    c as int - '0' as int
  }

  function DigitChar(d: nat): char
    requires d < 10
  {
    ('0' as int + d) as char
  }

  /** The value of a string of decimal digits. */
  function DigitsValue(s: string): nat
    requires AllDigits(s)
    decreases |s|
  {
    if |s| == 0 then 0 else DigitsValue(s[..|s| - 1]) * 10 + DigitValue(s[|s| - 1])
  }

  /** `str(n)` for a natural number. */
  function NatToString(n: nat): (s: string)
    ensures |s| >= 1 && AllDigits(s)
  {
    if n < 10 then [DigitChar(n)] else NatToString(n / 10) + [DigitChar(n % 10)]
  }

  /** `str(n)` for an integer. */
  function IntToString(n: int): string {
    if n < 0 then "-" + NatToString(-n) else NatToString(n)
  }

  /** `str(n)` is non-empty, has no surrounding whitespace and holds no colon. */
  lemma IntToStringShape(n: int)
    ensures |IntToString(n)| >= 1 && Trimmed(IntToString(n)) && ':' !in IntToString(n)
  {
    var s := IntToString(n);
    assert IsDigit(s[|s| - 1]) && (IsDigit(s[0]) || s[0] == '-');
    NotSpace(s[0]);
    NotSpace(s[|s| - 1]);
  }

  lemma {:induction false} DigitsOfNat(n: nat)
    ensures DigitsValue(NatToString(n)) == n
  {
    if n >= 10 {
      var s := NatToString(n);
      DigitsOfNat(n / 10);
      assert s[..|s| - 1] == NatToString(n / 10);
    }
  }

  /** A leading zero does not change the value of a digit string. */
  lemma {:induction false} LeadingZero(s: string)
    requires AllDigits(s)
    ensures AllDigits("0" + s) && DigitsValue("0" + s) == DigitsValue(s)
    decreases |s|
  {
    if |s| > 0 {
      var z := "0" + s;
      assert z[..|z| - 1] == "0" + s[..|s| - 1];
      LeadingZero(s[..|s| - 1]);
    }
  }

  /**
   * `int(text)`: surrounding whitespace, then an optional sign, then one or
   * more ASCII digits; anything else is a ValueError (None).
   */
  function ParseInt(s: string): Option<int> {
    ParseStrippedInt(Strip(s))
  }

  /** What `int()` reads from a text once its surrounding whitespace is gone. */
  function ParseStrippedInt(t: string): Option<int> {
    if |t| >= 2 && (t[0] == '-' || t[0] == '+') && AllDigits(t[1..]) then
      var v: int := DigitsValue(t[1..]);
      Some(if t[0] == '-' then -v else v)
    else if |t| >= 1 && AllDigits(t) then
      Some(DigitsValue(t) as int)
    else
      None
  }

  lemma ParseIntOfTrimmed(t: string)
    requires Trimmed(t)
    ensures ParseInt(t) == ParseStrippedInt(t)
  {
    StripTrimmed(t);
  }

  lemma ParseIntDigits(d: string)
    requires |d| >= 1 && AllDigits(d)
    ensures ParseInt(d) == Some(DigitsValue(d) as int)
  {
    assert IsDigit(d[0]) && IsDigit(d[|d| - 1]);
    NotSpace(d[0]);
    NotSpace(d[|d| - 1]);
    ParseIntOfTrimmed(d);
    assert d[0] != '-' && d[0] != '+';
  }

  lemma ParseIntNegativeDigits(d: string)
    requires |d| >= 1 && AllDigits(d)
    ensures ParseInt("-" + d) == Some(-(DigitsValue(d) as int))
  {
    var s := "-" + d;
    assert s[1..] == d;
    assert |s| >= 2 && s[0] == '-' && s[|s| - 1] == d[|d| - 1];
    NotSpace(s[0]);
    NotSpace(s[|s| - 1]);
    ParseIntOfTrimmed(s);
  }

  /** `int(str(n)) == n` */
  lemma ParseIntOfString(n: int)
    ensures ParseInt(IntToString(n)) == Some(n)
  {
    if n < 0 {
      ParseIntOfNegative(-n);
    } else {
      ParseIntOfNat(n);
    }
  }

  lemma ParseIntOfNat(n: nat)
    ensures ParseInt(NatToString(n)) == Some(n)
  {
    DigitsOfNat(n);
    ParseIntDigits(NatToString(n));
  }

  lemma ParseIntOfNegative(n: nat)
    ensures ParseInt("-" + NatToString(n)) == Some(-(n as int))
  {
    var d := NatToString(n);
    DigitsOfNat(n);
    assert DigitsValue(d) as int == n;
    ParseIntNegativeDigits(d);
  }

  /** `x / 10**k`, one decimal place at a time. */
  function ShiftPoint(x: real, k: nat): real
    decreases k
  {
    if k == 0 then x else ShiftPoint(x, k - 1) / 10.0
  }

  /** An unsigned decimal: digits, at most one point, at least one digit. */
  function DecimalBody(b: string): Option<real> {
    if '.' in b then
      var i := IndexOf(b, '.');
      var whole, frac := b[..i], b[i + 1..];
      if AllDigits(whole) && AllDigits(frac) && |whole| + |frac| >= 1 then
        Some(DigitsValue(whole) as real + ShiftPoint(DigitsValue(frac) as real, |frac|))
      else
        None
    else if |b| >= 1 && AllDigits(b) then
      Some(DigitsValue(b) as real)
    else
      None
  }

  /**
   * `float(text)` on decimal text: surrounding whitespace, an optional sign and
   * an unsigned decimal. Exponents, `inf` and `nan` are not accepted here.
   */
  function ParseDecimal(s: string): Option<real> {
    var t := Strip(s);
    var signed := |t| > 0 && (t[0] == '-' || t[0] == '+');
    var body := if signed then t[1..] else t;
    match DecimalBody(body)
    case None => None
    case Some(v) => Some(if signed && t[0] == '-' then -v else v)
  }

  lemma NoPointInDigits(s: string)
    requires AllDigits(s)
    ensures '.' !in s
  {
    forall i | 0 <= i < |s|
      ensures s[i] != '.'
    {
      assert IsDigit(s[i]);
    }
  }

  /** Every text `int()` accepts, `float()` accepts too, with the same value. */
  lemma IntTextIsDecimalText(s: string)
    requires ParseInt(s).Some?
    ensures ParseDecimal(s) == Some(ParseInt(s).value as real)
  {
    DigitsAreDecimal(Strip(s));
  }

  /** The unsigned part of integer text reads as a decimal with the same value. */
  lemma DigitsAreDecimal(t: string)
    ensures |t| >= 2 && AllDigits(t[1..]) ==> DecimalBody(t[1..]) == Some(DigitsValue(t[1..]) as real)
    ensures |t| >= 1 && AllDigits(t) ==> DecimalBody(t) == Some(DigitsValue(t) as real)
  {
    if |t| >= 2 && AllDigits(t[1..]) {
      NoPointInDigits(t[1..]);
    }
    if |t| >= 1 && AllDigits(t) {
      NoPointInDigits(t);
    }
  }

  /** `int(x)` for a float `x`: truncation toward zero. */
  function Truncate(x: real): (n: int)
    ensures x >= 0.0 ==> 0 <= n && n as real <= x < n as real + 1.0
    ensures x < 0.0 ==> n <= 0 && n as real - 1.0 < x <= n as real
  {
    if x >= 0.0 then x.Floor else -((-x).Floor)
  }

  predicate EndsWith(s: string, suffix: string) {
    |suffix| <= |s| && s[|s| - |suffix|..] == suffix
  }
}
