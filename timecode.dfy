/** Timestamps in parser.ts and subtitleUtils.ts: the SRT and WebVTT stamp syntax, the
    search for a timing line that the SRT and VTT parsers do with a regular expression, and
    the ASS-to-SRT conversion `convertASSTime`. */
module Timecode {
  import opened JsString

  /** `\d{2}:\d{2}:\d{2}<sep>\d{3}`: an SRT stamp when sep is ',', a WebVTT stamp when it is '.'. */
  predicate IsStamp(s: string, sep: char) {
    |s| == 12
    && IsDigit(s[0]) && IsDigit(s[1]) && s[2] == ':'
    && IsDigit(s[3]) && IsDigit(s[4]) && s[5] == ':'
    && IsDigit(s[6]) && IsDigit(s[7]) && s[8] == sep
    && IsDigit(s[9]) && IsDigit(s[10]) && IsDigit(s[11])
  }

  const Arrow: string := " --> "

  /** No line break character at all. */
  predicate SingleLine(s: string) {
    forall k :: 0 <= k < |s| ==> s[k] != '\r' && s[k] != '\n'
  }

  lemma StampSingleLine(s: string, sep: char)
    requires IsStamp(s, sep) && sep != '\r' && sep != '\n'
    ensures SingleLine(s)
  {
  }

  lemma DigitsSingleLine(s: string)
    requires forall k :: 0 <= k < |s| ==> IsDigit(s[k])
    ensures SingleLine(s)
  {
  }

  /** A timing line of two stamps is one line. */
  lemma StampsSingleLine(a: string, b: string, sep: char)
    requires IsStamp(a, sep) && IsStamp(b, sep) && sep != '\r' && sep != '\n'
    ensures SingleLine(a + Arrow + b)
  {
    StampSingleLine(a, sep);
    StampSingleLine(b, sep);
    var line := a + Arrow + b;
    forall k | 0 <= k < |line| ensures line[k] != '\r' && line[k] != '\n' {
      if k < 12 {
        assert line[k] == a[k];
      } else if k >= 17 {
        assert line[k] == b[k - 17];
      }
    }
  }

  /** The timing-line pattern `(stamp) --> (stamp)` matches at index p of line. */
  predicate TimingAt(line: string, p: nat, sep: char) {
    p + 29 <= |line| && IsStamp(line[p..p + 12], sep) && line[p + 12..p + 17] == Arrow
    && IsStamp(line[p + 17..p + 29], sep)
  }

  /** The leftmost index at or after from where the timing-line pattern matches. */
  function TimingFrom(line: string, sep: char, from: nat): (r: Option<nat>)
    ensures r.Some? ==> from <= r.value && TimingAt(line, r.value, sep)
    ensures r.Some? ==> forall p: nat :: from <= p < r.value ==> !TimingAt(line, p, sep)
    ensures r.None? ==> forall p: nat :: from <= p ==> !TimingAt(line, p, sep)
    decreases |line| - from
  {
    if from + 29 > |line| then None
    else if TimingAt(line, from, sep) then Some(from)
    else TimingFrom(line, sep, from + 1)
  }

  /** `line.match(/(\d{2}:\d{2}:\d{2}<sep>\d{3}) --> (\d{2}:\d{2}:\d{2}<sep>\d{3})/)`, an
      unanchored search: the two captured stamps of the leftmost match (parser.ts:25 and 67,
      subtitleUtils.ts:22). */
  function FindTiming(line: string, sep: char): (r: Option<(string, string)>)
    ensures r.Some? ==> IsStamp(r.value.0, sep) && IsStamp(r.value.1, sep)
    ensures r.None? <==> forall p: nat :: !TimingAt(line, p, sep)
    ensures r.Some? ==> exists p: nat :: TimingAt(line, p, sep)
                                         && (forall q: nat :: q < p ==> !TimingAt(line, q, sep))
                                         && r.value == (line[p..p + 12], line[p + 17..p + 29])
  {
    match TimingFrom(line, sep, 0)
    case None => None
    case Some(p) => Some((line[p..p + 12], line[p + 17..p + 29]))
  }

  /** A timing line made of two stamps is found whole. */
  lemma TimingOfStamps(s: string, e: string, sep: char)
    requires IsStamp(s, sep) && IsStamp(e, sep)
    ensures FindTiming(s + Arrow + e, sep) == Some((s, e))
  {
    var line := s + Arrow + e;
    assert line[0..12] == s && line[12..17] == Arrow && line[17..29] == e;
    assert TimingAt(line, 0, sep);
  }

  /** A single line before a line feed is the first line. */
  lemma LineBeforeRest(a: string, rest: string)
    requires SingleLine(a)
    ensures Split(a + "\n" + rest, LineBreak) == [a] + Split(rest, LineBreak)
  {
    SplitLinesAppend(a, rest, []);
    SplitLinesSingle(a, []);
    assert [] + a == a;
  }

  /** A timing line made of two stamps has no white space at either end. */
  lemma TimingTrimmed(s: string, e: string, sep: char)
    requires IsStamp(s, sep) && IsStamp(e, sep)
    ensures Trim(s + Arrow + e) == s + Arrow + e
  {
    var line := s + Arrow + e;
    assert line[0] == s[0] && line[|line| - 1] == e[11];
    assert Trimmed(line);
  }

  /** A line of digits (an SRT or VTT cue number) is never a timing line. */
  lemma DigitsAreNoTiming(line: string, sep: char)
    requires forall k :: 0 <= k < |line| ==> IsDigit(line[k])
    ensures FindTiming(line, sep).None?
  {
    forall p: nat ensures !TimingAt(line, p, sep) {
      if p + 29 <= |line| {
        assert line[p..p + 12][2] == line[p + 2];
      }
    }
  }

  // ---------------------------------------------------------------- ASS time

  /** The first index at or after p that does not hold a digit. */
  function DigitRunEnd(s: string, p: nat): (q: nat)
    requires p <= |s|
    ensures p <= q <= |s|
    ensures forall k :: p <= k < q ==> IsDigit(s[k])
    ensures q < |s| ==> !IsDigit(s[q])
    decreases |s| - p
  {
    if p < |s| && IsDigit(s[p]) then DigitRunEnd(s, p + 1) else p
  }

  /** `(\d+):(\d{2}):(\d{2})\.(\d{2})` matches at p. The greedy `\d+` takes the whole run of
      digits: giving a digit back cannot help, since a digit is never the ':' that follows. */
  predicate AssTimeAt(s: string, p: nat) {
    p < |s| && IsDigit(s[p]) &&
    var q := DigitRunEnd(s, p);
    q + 9 <= |s| && s[q] == ':' && IsDigit(s[q + 1]) && IsDigit(s[q + 2])
    && s[q + 3] == ':' && IsDigit(s[q + 4]) && IsDigit(s[q + 5])
    && s[q + 6] == '.' && IsDigit(s[q + 7]) && IsDigit(s[q + 8])
  }

  /** The leftmost index at or after from where the ASS time pattern matches. */
  function AssTimeFrom(s: string, from: nat): (r: Option<nat>)
    ensures r.Some? ==> from <= r.value && AssTimeAt(s, r.value)
    ensures r.Some? ==> forall p: nat :: from <= p < r.value ==> !AssTimeAt(s, p)
    ensures r.None? ==> forall p: nat :: from <= p ==> !AssTimeAt(s, p)
    decreases |s| - from
  {
    if from >= |s| then None
    else if AssTimeAt(s, from) then Some(from)
    else AssTimeFrom(s, from + 1)
  }

  function Times10(x: JsInt): JsInt {
    match x
    case NaN => NaN
    case Int(v) => Int(v * 10)
  }

  /** `convertASSTime` as written (parser.ts:180-194). The destructuring
      `const [hours, minutes, seconds, centiseconds] = match` binds the whole match to `hours`
      and shifts every capture one place, so the output starts with the whole matched ASS
      time and ends with the seconds field, times ten, as milliseconds. Without a match the
      untrimmed input is returned. */
  function ConvertAssTime(assTime: string): (r: string)
    ensures (forall p: nat :: !AssTimeAt(Trim(assTime), p)) ==> r == assTime
    ensures (exists p: nat :: AssTimeAt(Trim(assTime), p)) ==> |r| >= 19 && !IsStamp(r, ',')
  {
    var t := Trim(assTime);
    match AssTimeFrom(t, 0)
    case None => assTime
    case Some(p) => Rewritten(t, p)
  }

  /** The string `convertASSTime` builds from the match at p. */
  function Rewritten(t: string, p: nat): (r: string)
    requires AssTimeAt(t, p)
    ensures |r| >= 19 && !IsStamp(r, ',')
  {
    var q := DigitRunEnd(t, p);
    var hours := t[p..q + 9];            // match[0]: the whole match
    var minutes := t[p..q];              // match[1]: the hours digits
    var seconds := t[q + 1..q + 3];      // match[2]: the minutes digits
    var centiseconds := t[q + 4..q + 6]; // match[3]: the seconds digits
    var milliseconds := PadStart(IntToString(Times10(ParseInt(centiseconds, Absent))), 3, '0');
    PadStart(hours, 2, '0') + ":" + minutes + ":" + seconds + "," + milliseconds
  }

  /** The example of the doc comment does not come out as `00:00:01,500`. */
  lemma ConvertAssTimeExample(t: string)
    requires t == "0:00:01.50"
    ensures ConvertAssTime(t) == "0:00:01.50:0:00,010"
  {
    ExampleSlice(t);
    ExampleTrim(t);
    ExampleMatch(t);
    ExampleConverted(t);
    ExampleFields(t);
    ExampleMilliseconds();
    ExampleAssembled(t, "010");
  }

  lemma ExampleSlice(t: string)
    requires t == "0:00:01.50"
    ensures t[5..7] == "01"
  {
  }

  lemma ExampleConverted(t: string)
    requires Trim(t) == t && AssTimeFrom(t, 0) == Some(0)
    ensures ConvertAssTime(t) == Rewritten(t, 0)
  {
  }

  lemma ExampleFields(t: string)
    requires t == "0:00:01.50" && AssTimeAt(t, 0) && DigitRunEnd(t, 0) == 1
    ensures Rewritten(t, 0) == PadStart(t[0..10], 2, '0') + ":" + t[0..1] + ":" + t[2..4] + ","
                               + PadStart(IntToString(Times10(ParseInt(t[5..7], Absent))), 3, '0')
  {
  }

  lemma ExampleAssembled(t: string, ms: string)
    requires t == "0:00:01.50" && ms == "010"
    ensures PadStart(t[0..10], 2, '0') + ":" + t[0..1] + ":" + t[2..4] + "," + ms == "0:00:01.50:0:00,010"
  {
    assert t[0..10] == t;
  }

  lemma ExampleMatch(t: string)
    requires t == "0:00:01.50"
    ensures AssTimeFrom(t, 0) == Some(0) && AssTimeAt(t, 0) && DigitRunEnd(t, 0) == 1
  {
    ExampleRun(t);
    ExampleFieldsMatch(t, 1);
  }

  lemma ExampleFieldsMatch(t: string, q: nat)
    requires t == "0:00:01.50" && q == 1
    ensures q + 9 <= |t| && t[q] == ':' && IsDigit(t[q + 1]) && IsDigit(t[q + 2])
    ensures t[q + 3] == ':' && IsDigit(t[q + 4]) && IsDigit(t[q + 5])
    ensures t[q + 6] == '.' && IsDigit(t[q + 7]) && IsDigit(t[q + 8])
  {
  }

  lemma ExampleTrim(t: string)
    requires t == "0:00:01.50"
    ensures Trim(t) == t
  {
    assert !IsSpace(t[0]) && !IsSpace(t[9]);
    assert Trimmed(t);
  }

  lemma ExampleRun(t: string)
    requires t == "0:00:01.50"
    ensures DigitRunEnd(t, 0) == 1
  {
    assert !IsDigit(t[1]);
    assert DigitRunEnd(t, 1) == 1;
  }

  lemma ExampleMilliseconds()
    ensures PadStart(IntToString(Times10(ParseInt("01", Absent))), 3, '0') == "010"
  {
    ExampleParse();
    ExampleTen();
    ExamplePad();
  }

  lemma ExampleParse()
    ensures ParseInt("01", Absent) == Int(1)
  {
    ParseIntDigits("01", Absent);
    assert "01"[..1] == "0";
    assert DigitsValue("0", 10) == 0;
  }

  lemma ExampleTen()
    ensures IntToString(Int(10)) == "10"
  {
    assert NatToString(10) == NatToString(1) + "0";
  }

  lemma ExamplePad()
    ensures PadStart("10", 3, '0') == "010"
  {
    assert PadStart("010", 3, '0') == "010";
  }
}
