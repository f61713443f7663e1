/** Advanced SubStation Alpha in parser.ts: `parseASS` (parser.ts:93-143), which reads the
    `Dialogue:` lines of the `[Events]` section through the columns its `Format:` line names,
    and `splitASSLine` (parser.ts:148-175), its brace-aware comma splitter. */
module AssFormat {
  import opened JsString
  import opened Timecode
  import opened Entries

  // ---------------------------------------------------------------- splitASSLine

  /** After reading t from the start of a field the scan is inside braces: the last brace in
      t is `{`. */
  predicate InBraces(t: string)
    decreases |t|
  {
    t != [] && (t[|t| - 1] == '{' || (t[|t| - 1] != '}' && InBraces(t[..|t| - 1])))
  }

  /** t holds no comma the scan splits at: every comma in it comes inside braces. */
  predicate NoSplitComma(t: string) {
    forall j :: 0 <= j < |t| && t[j] == ',' ==> InBraces(t[..j])
  }

  /** t ends in a comma the scan splits at. */
  predicate EndsInSplitComma(t: string) {
    t != [] && t[|t| - 1] == ',' && !InBraces(t[..|t| - 1])
  }

  /** The scan of `splitASSLine` over s, with part the field read so far and inBraces the
      brace flag: every field, the last one included even when it is empty. */
  function Fields(s: string, part: string, inBraces: bool): (r: seq<string>)
    ensures |r| >= 1
    decreases |s|
  {
    if s == [] then [part]
    else if s[0] == '{' then Fields(s[1..], part + [s[0]], true)
    else if s[0] == '}' then Fields(s[1..], part + [s[0]], false)
    else if s[0] == ',' && !inBraces then [part] + Fields(s[1..], [], inBraces)
    else Fields(s[1..], part + [s[0]], inBraces)
  }

  /** What `splitASSLine` returns: the fields, the last one only when it is non-empty. */
  function LineFields(line: string): seq<string> {
    var fs := Fields(line, [], false);
    if fs[|fs| - 1] != [] then fs else fs[..|fs| - 1]
  }

  /** `splitASSLine`. */
  method SplitAssLine(line: string) returns (parts: seq<string>)
    ensures parts == LineFields(line)
  {
    parts := [];
    var currentPart: string := [];
    var inBraces := false;
    var i := 0;
    while i < |line|
      invariant i <= |line|
      invariant parts + Fields(line[i..], currentPart, inBraces) == Fields(line, [], false)
    {
      var c := line[i];
      assert line[i..][1..] == line[i + 1..];
      if c == '{' {
        inBraces := true;
        currentPart := currentPart + [c];
      } else if c == '}' {
        inBraces := false;
        currentPart := currentPart + [c];
      } else if c == ',' && !inBraces {
        parts := parts + [currentPart];
        currentPart := [];
      } else {
        currentPart := currentPart + [c];
      }
      i := i + 1;
    }
    assert line[i..] == [];
    if currentPart != [] {
      parts := parts + [currentPart];
    }
  }

  /** The brace flag after one more character. */
  lemma InBracesSnoc(t: string, c: char)
    ensures InBraces(t + [c]) == (c == '{' || (c != '}' && InBraces(t)))
  {
    assert (t + [c])[..|t|] == t;
  }

  /** Outside braces, what came before does not matter to the brace flag. */
  lemma {:induction false} InBracesReset(a: string, y: string)
    requires !InBraces(a)
    ensures InBraces(a + y) == InBraces(y)
    decreases |y|
  {
    if y != [] {
      var y0 := y[..|y| - 1];
      InBracesReset(a, y0);
      assert a + y == (a + y0) + [y[|y| - 1]];
      assert y == y0 + [y[|y| - 1]];
      InBracesSnoc(a + y0, y[|y| - 1]);
      InBracesSnoc(y0, y[|y| - 1]);
    } else {
      assert a + y == a;
    }
  }

  /** The field read so far grows by a character that is not a split comma. */
  lemma GrowPart(part: string, c: char)
    requires NoSplitComma(part) && (c == ',' ==> InBraces(part))
    ensures NoSplitComma(part + [c])
  {
    var p := part + [c];
    forall j | 0 <= j < |p| && p[j] == ','
      ensures InBraces(p[..j])
    {
      if j < |part| {
        assert p[..j] == part[..j];
      } else {
        assert p[..j] == part;
      }
    }
  }

  /** Joining the fields with `,` gives back what was read. */
  lemma {:induction false} FieldsJoin(s: string, part: string, b: bool)
    ensures Join(Fields(s, part, b), ",") == part + s
    decreases |s|
  {
    if s == [] {
      assert part + s == part;
    } else {
      var c := s[0];
      if c == ',' && !b {
        var rest := Fields(s[1..], [], b);
        FieldsJoin(s[1..], [], b);
        assert [] + s[1..] == s[1..];
        JoinCons(part, rest, ",");
        HeadTail(part, s);
      } else {
        var b' := if c == '{' then true else if c == '}' then false else b;
        FieldsJoin(s[1..], part + [c], b');
        HeadTail(part, s);
      }
    }
  }

  /** No field holds a comma the scan splits at. */
  lemma {:induction false} FieldsNoSplitComma(s: string, part: string, b: bool)
    requires b == InBraces(part) && NoSplitComma(part)
    ensures forall i :: 0 <= i < |Fields(s, part, b)| ==> NoSplitComma(Fields(s, part, b)[i])
    decreases |s|
  {
    if s != [] {
      var c := s[0];
      if c == ',' && !b {
        FieldsNoSplitComma(s[1..], [], b);
      } else {
        var b' := if c == '{' then true else if c == '}' then false else b;
        InBracesSnoc(part, c);
        GrowPart(part, c);
        FieldsNoSplitComma(s[1..], part + [c], b');
      }
    }
  }

  /** The last of the fields fs is empty. */
  predicate LastEmpty(fs: seq<string>) {
    fs != [] && fs[|fs| - 1] == []
  }

  /** t is empty or ends in a split comma. */
  predicate EmptyOrSplitEnd(t: string) {
    t == [] || EndsInSplitComma(t)
  }

  /** The last field is empty exactly when nothing was read or the input ends in a split
      comma. */
  lemma {:induction false} LastFieldEmpty(s: string, part: string, b: bool)
    requires b == InBraces(part) && NoSplitComma(part)
    ensures LastEmpty(Fields(s, part, b)) <==> EmptyOrSplitEnd(part + s)
    decreases |s|
  {
    if s == [] {
      assert part + s == part;
      NoSplitCommaEnd(part);
    } else {
      var c, rest := s[0], s[1..];
      var fs := Fields(s, part, b);
      if c == ',' && !b {
        var rs := Fields(rest, [], false);
        assert fs == [part] + rs by { FieldsCommaStep(s, part); }
        assert LastEmpty(fs) == LastEmpty(rs);
        EmptyPart();
        LastFieldEmpty(rest, [], false);
        assert [] + rest == rest;
        SplitCommaEnd(part, s);
        assert part + s != [];
      } else {
        var b' := if c == '{' then true else if c == '}' then false else b;
        var p := part + [c];
        assert fs == Fields(rest, p, b') by { FieldsCharStep(s, part, b, b'); }
        InBracesSnoc(part, c);
        GrowPart(part, c);
        LastFieldEmpty(rest, p, b');
        assert part + s == p + rest by { HeadTail(part, s); }
      }
    }
  }

  lemma FieldsCommaStep(s: string, part: string)
    requires s != [] && s[0] == ','
    ensures Fields(s, part, false) == [part] + Fields(s[1..], [], false)
  {
  }

  lemma FieldsCharStep(s: string, part: string, b: bool, b': bool)
    requires s != [] && !(s[0] == ',' && !b)
    requires b' == if s[0] == '{' then true else if s[0] == '}' then false else b
    ensures Fields(s, part, b) == Fields(s[1..], part + [s[0]], b')
  {
  }

  lemma NoSplitCommaEnd(t: string)
    requires NoSplitComma(t)
    ensures !EndsInSplitComma(t)
  {
    if t != [] && t[|t| - 1] == ',' {
      assert InBraces(t[..|t| - 1]);
    }
  }

  /** After a split comma, the input ends in a split comma exactly when what follows is empty
      or ends in one. */
  lemma SplitCommaEnd(part: string, s: string)
    requires s != [] && s[0] == ',' && !InBraces(part)
    ensures EndsInSplitComma(part + s) <==> s[1..] == [] || EndsInSplitComma(s[1..])
  {
    var t := part + [s[0]];
    var y := s[1..];
    HeadTail(part, s);
    InBracesSnoc(part, s[0]);
    if y == [] {
      assert t + y == t;
      assert t[..|t| - 1] == part;
    } else {
      SplitCommaBefore(t, y);
    }
  }

  /** Behind a split comma, the input ends in a split comma exactly when what follows does. */
  lemma SplitCommaBefore(t: string, y: string)
    requires y != [] && !InBraces(t)
    ensures EndsInSplitComma(t + y) <==> EndsInSplitComma(y)
  {
    DropLast(t, y);
    InBracesReset(t, y[..|y| - 1]);
  }

  lemma DropLast(t: string, y: string)
    requires y != []
    ensures (t + y)[..|t + y| - 1] == t + y[..|y| - 1] && (t + y)[|t + y| - 1] == y[|y| - 1]
  {
  }

  lemma JoinSnoc(xs: seq<string>, x: string, sep: string)
    requires xs != []
    ensures Join(xs + [x], sep) == Join(xs, sep) + sep + x
    decreases |xs|
  {
    if |xs| > 1 {
      JoinSnoc(xs[1..], x, sep);
      assert (xs + [x])[1..] == xs[1..] + [x];
    }
  }

  /** `splitASSLine` loses only a trailing split comma: joined with `,` its fields give back
      the line, without that comma. */
  lemma LineFieldsJoin(line: string)
    ensures EndsInSplitComma(line) ==> Join(LineFields(line), ",") + "," == line
    ensures !EndsInSplitComma(line) ==> Join(LineFields(line), ",") == line
  {
    var fs := Fields(line, [], false);
    LineScan(line);
    if fs[|fs| - 1] == [] {
      var front := fs[..|fs| - 1];
      assert LineFields(line) == front;
      DropEmptyLast(fs);
      if |fs| == 1 {
        assert line == [] && front == [];
      } else {
        assert Join(front, ",") + "," == line;
        assert EndsInSplitComma(line);
      }
    } else {
      assert LineFields(line) == fs;
    }
  }

  /** The scan of a whole line joins back into the line and ends in an empty field exactly when
      the line is empty or ends in a split comma. */
  lemma LineScan(line: string)
    ensures Join(Fields(line, [], false), ",") == line
    ensures var fs := Fields(line, [], false);
            fs[|fs| - 1] == [] <==> line == [] || EndsInSplitComma(line)
  {
    LineScanJoin(line);
    LineScanLast(line);
  }

  lemma LineScanJoin(line: string)
    ensures Join(Fields(line, [], false), ",") == line
  {
    assert [] + line == line;
    FieldsJoin(line, [], false);
  }

  lemma LineScanLast(line: string)
    ensures var fs := Fields(line, [], false);
            fs[|fs| - 1] == [] <==> line == [] || EndsInSplitComma(line)
  {
    assert [] + line == line;
    EmptyPart();
    LastFieldEmpty(line, [], false);
  }

  lemma EmptyPart()
    ensures !InBraces([]) && NoSplitComma([])
  {
  }

  lemma DropEmptyLast(fs: seq<string>)
    requires fs != [] && fs[|fs| - 1] == []
    ensures |fs| == 1 ==> Join(fs, ",") == []
    ensures |fs| > 1 ==> Join(fs[..|fs| - 1], ",") + "," == Join(fs, ",")
  {
    var front := fs[..|fs| - 1];
    assert fs == front + [[]];
    if front != [] {
      JoinSnoc(front, [], ",");
    }
  }

  /** No field of `splitASSLine` holds a comma outside braces. */
  lemma LineFieldsNoSplitComma(line: string)
    ensures forall i :: 0 <= i < |LineFields(line)| ==> NoSplitComma(LineFields(line)[i])
  {
    FieldsNoSplitComma(line, [], false);
  }

  /** A prefix with no split comma stays in the field being read. */
  lemma {:induction false} FieldsPrefix(a: string, t: string, part: string)
    requires NoSplitComma(part + a)
    ensures Fields(a + t, part, InBraces(part)) == Fields(t, part + a, InBraces(part + a))
    decreases |a|
  {
    if a == [] {
      assert a + t == t && part + a == part;
    } else {
      var c := a[0];
      assert (a + t)[1..] == a[1..] + t;
      assert part + a == (part + [c]) + a[1..];
      InBracesSnoc(part, c);
      if c == ',' {
        assert (part + a)[..|part|] == part;
      }
      var p := part + [c];
      assert NoSplitComma(p) by {
        forall j | 0 <= j < |p| && p[j] == ',' ensures InBraces(p[..j]) {
          assert p[..j] == (part + a)[..j];
        }
      }
      FieldsPrefix(a[1..], t, p);
    }
  }

  /** A comma outside braces ends the field: the field before it is exactly a. */
  lemma CommaCuts(a: string, b: string)
    requires NoSplitComma(a) && !InBraces(a)
    ensures LineFields(a + "," + b) == [a] + LineFields(b)
  {
    assert [] + a == a;
    FieldsPrefix(a, "," + b, []);
    assert a + "," + b == a + ("," + b);
    assert ("," + b)[1..] == b;
    assert Fields(a + "," + b, [], false) == [a] + Fields(b, [], false);
    LineFieldsCons(a + "," + b, a, b);
  }

  /** When the scan of a line is a field x followed by the scan of b, its fields are x followed
      by those of b. */
  lemma LineFieldsCons(line: string, x: string, b: string)
    requires Fields(line, [], false) == [x] + Fields(b, [], false)
    ensures LineFields(line) == [x] + LineFields(b)
  {
    var rest := Fields(b, [], false);
    if rest[|rest| - 1] == [] {
      assert ([x] + rest)[..|rest|] == [x] + rest[..|rest| - 1];
    }
  }

  // ---------------------------------------------------------------- text cleaning

  /** The index of the first `}` at or after from, if any. */
  function CloseBraceFrom(t: string, from: nat): (r: Option<nat>)
    requires from <= |t|
    ensures r.Some? ==> from <= r.value < |t| && t[r.value] == '}'
    ensures r.None? ==> forall k :: from <= k < |t| ==> t[k] != '}'
    decreases |t| - from
  {
    if from == |t| then None else if t[from] == '}' then Some(from) else CloseBraceFrom(t, from + 1)
  }

  /** `text.replace(/{[^}]*}/g, '')`: a `{` and everything up to the first `}` after it go;
      a `{` that no later `}` closes stays. */
  function RemoveOverrides(t: string): string
    decreases |t|
  {
    if t == [] then []
    else if t[0] == '{' then
      match CloseBraceFrom(t, 1)
      case Some(k) => RemoveOverrides(t[k + 1..])
      case None => [t[0]] + RemoveOverrides(t[1..])
    else [t[0]] + RemoveOverrides(t[1..])
  }

  /** No `{` in t has a `}` after it: nothing in t is an override block. */
  predicate NoOverrideBlock(t: string) {
    forall i, j :: 0 <= i < j < |t| && t[i] == '{' ==> t[j] != '}'
  }

  /** Text without a `}` is left as it is. */
  lemma {:induction false} NoCloseKept(t: string)
    requires forall k :: 0 <= k < |t| ==> t[k] != '}'
    ensures RemoveOverrides(t) == t
    decreases |t|
  {
    if t != [] {
      NoCloseKept(t[1..]);
      if t[0] == '{' {
        assert CloseBraceFrom(t, 1).None?;
      }
    }
  }

  /** After the removal no override block is left. */
  lemma {:induction false} OverridesRemoved(t: string)
    ensures NoOverrideBlock(RemoveOverrides(t))
    decreases |t|
  {
    if t != [] {
      if t[0] == '{' && CloseBraceFrom(t, 1).Some? {
        OverridesRemoved(t[CloseBraceFrom(t, 1).value + 1..]);
      } else {
        OverridesRemoved(t[1..]);
        var rest := RemoveOverrides(t[1..]);
        if t[0] == '{' {
          NoCloseKept(t[1..]);
        }
        var r := [t[0]] + rest;
        forall i, j | 0 <= i < j < |r| && r[i] == '{' ensures r[j] != '}' {
          assert r[j] == rest[j - 1];
          if i > 0 {
            assert r[i] == rest[i - 1];
          }
        }
      }
    }
  }

  /** Text with no override block is left as it is, so the removal is idempotent. */
  lemma {:induction false} NoOverrideKept(t: string)
    requires NoOverrideBlock(t)
    ensures RemoveOverrides(t) == t
    decreases |t|
  {
    if t != [] {
      if t[0] == '{' {
        assert forall k :: 1 <= k < |t| ==> t[k] != '}';
        assert CloseBraceFrom(t, 1).None?;
      }
      assert NoOverrideBlock(t[1..]) by {
        forall i, j | 0 <= i < j < |t[1..]| && t[1..][i] == '{' ensures t[1..][j] != '}' {
          assert t[1..][i] == t[i + 1] && t[1..][j] == t[j + 1];
        }
      }
      NoOverrideKept(t[1..]);
    }
  }

  lemma RemoveOverridesIdempotent(t: string)
    ensures RemoveOverrides(RemoveOverrides(t)) == RemoveOverrides(t)
  {
    OverridesRemoved(t);
    NoOverrideKept(RemoveOverrides(t));
  }

  /** `text.replace(/\\N/g, '\n')`: every two-character `\N` becomes a line feed. */
  function LineBreaks(t: string): string {
    ReplaceAll(t, "\\N", "\n")
  }

  /** On text without line feeds the replacement is undone by writing each line feed back as
      `\N`. */
  lemma {:induction false} LineBreaksBack(t: string)
    requires forall k :: 0 <= k < |t| ==> t[k] != '\n'
    ensures ReplaceAll(LineBreaks(t), "\n", "\\N") == t
    decreases |t|
  {
    if t != [] {
      if "\\N" <= t {
        LineBreaksBack(t[2..]);
        assert ("\n" + LineBreaks(t[2..]))[1..] == LineBreaks(t[2..]);
        assert t == "\\N" + t[2..];
      } else {
        LineBreaksBack(t[1..]);
        assert ([t[0]] + LineBreaks(t[1..]))[1..] == LineBreaks(t[1..]);
      }
    }
  }

  /** The text `parseASS` keeps from the text field. */
  function CleanText(field: string): string {
    LineBreaks(RemoveOverrides(field))
  }

  // ---------------------------------------------------------------- the Format line

  /** The column names of a `Format:` line. */
  function FormatColumns(line: string): seq<string>
    requires |line| >= 7
  {
    TrimAll(Split(Trim(line[7..]), Literal(",")))
  }

  /** `formats.findIndex(f => f.toLowerCase() === name)`: the first column whose name,
      lowered, is name; -1 when there is none. */
  function FindColumn(formats: seq<string>, name: string): (r: int)
    ensures -1 <= r < |formats|
    ensures r == -1 <==> forall i :: 0 <= i < |formats| ==> LowerAscii(formats[i]) != name
    ensures r >= 0 ==> LowerAscii(formats[r]) == name
    ensures r >= 0 ==> forall i :: 0 <= i < r ==> LowerAscii(formats[i]) != name
    decreases |formats|
  {
    if formats == [] then -1
    else if LowerAscii(formats[0]) == name then 0
    else
      var k := FindColumn(formats[1..], name);
      if k == -1 then -1 else k + 1
  }

  // ---------------------------------------------------------------- parseASS

  /** The variables of the loop of `parseASS` (the local `formatLine` is only read in the
      iteration that sets it). */
  datatype AssState = AssState(inEvents: bool, textIndex: int, startIndex: int, endIndex: int,
                               id: int, entries: seq<SubtitleEntry>)

  const Start := AssState(false, -1, -1, -1, 1, [])

  /** The column indices are -1 or an index, as `findIndex` returns them. */
  predicate ColumnsSet(st: AssState) {
    st.textIndex >= -1 && st.startIndex >= -1 && st.endIndex >= -1
  }

  /** `Math.max(a, b, c)`. */
  function Max3(a: int, b: int, c: int): (r: int)
    ensures r >= a && r >= b && r >= c && (r == a || r == b || r == c)
  {
    if a >= b && a >= c then a else if b >= c then b else c
  }

  /** The entry a `Dialogue:` line with these fields gives. */
  function DialogueEntry(id: int, parts: seq<string>, textIndex: nat, startIndex: nat, endIndex: nat): SubtitleEntry
    requires textIndex < |parts| && startIndex < |parts| && endIndex < |parts|
  {
    SubtitleEntry(Int(id), ConvertAssTime(parts[startIndex]), ConvertAssTime(parts[endIndex]),
                  CleanText(parts[textIndex]))
  }

  /** One iteration of the loop of `parseASS`. */
  function AssStep(st: AssState, line: string): (r: AssState)
    requires ColumnsSet(st)
    ensures ColumnsSet(r)
  {
    if Trim(line) == "[Events]" then st.(inEvents := true)
    else if st.inEvents && "Format:" <= line then ReadFormat(st, line)
    else if st.inEvents && "Dialogue:" <= line
            && st.textIndex != -1 && st.startIndex != -1 && st.endIndex != -1 then
      ReadDialogue(st, line)
    else st
  }

  /** A `Format:` line sets the three column indices and nothing else. */
  function ReadFormat(st: AssState, line: string): (r: AssState)
    requires |line| >= 7
    ensures r.inEvents == st.inEvents && r.id == st.id && r.entries == st.entries
    ensures r.textIndex >= -1 && r.startIndex >= -1 && r.endIndex >= -1
  {
    var formats := FormatColumns(line);
    st.(textIndex := FindColumn(formats, "text"), startIndex := FindColumn(formats, "start"),
        endIndex := FindColumn(formats, "end"))
  }

  /** A `Dialogue:` line, once the columns are known, adds the entry with the next id when it
      has enough fields, and changes nothing else. */
  function ReadDialogue(st: AssState, line: string): (r: AssState)
    requires st.textIndex >= 0 && st.startIndex >= 0 && st.endIndex >= 0 && |line| >= 9
    ensures r.inEvents == st.inEvents && r.textIndex == st.textIndex
            && r.startIndex == st.startIndex && r.endIndex == st.endIndex
    ensures r == st || (r.id == st.id + 1 && |r.entries| == |st.entries| + 1
                        && r.entries[..|st.entries|] == st.entries && r.entries[|st.entries|].id == Int(st.id))
  {
    ReadFields(st, LineFields(Trim(line[9..])))
  }

  /** The fields of a `Dialogue:` line give an entry with the next id when there are more of
      them than the largest column index. */
  function ReadFields(st: AssState, parts: seq<string>): (r: AssState)
    requires st.textIndex >= 0 && st.startIndex >= 0 && st.endIndex >= 0
    ensures r.inEvents == st.inEvents && r.textIndex == st.textIndex
            && r.startIndex == st.startIndex && r.endIndex == st.endIndex
    ensures r == st || (r.id == st.id + 1 && |r.entries| == |st.entries| + 1
                        && r.entries[..|st.entries|] == st.entries && r.entries[|st.entries|].id == Int(st.id))
  {
    if |parts| > Max3(st.textIndex, st.startIndex, st.endIndex) then
      var e := DialogueEntry(st.id, parts, st.textIndex, st.startIndex, st.endIndex);
      assert (st.entries + [e])[..|st.entries|] == st.entries;
      st.(entries := st.entries + [e], id := st.id + 1)
    else st
  }

  /** The loop of `parseASS` over the lines, from state st. */
  function RunAss(st: AssState, lines: seq<string>): (r: AssState)
    requires ColumnsSet(st)
    ensures ColumnsSet(r)
    decreases |lines|
  {
    if lines == [] then st else RunAss(AssStep(st, lines[0]), lines[1..])
  }

  /** What `parseASS` returns. */
  function AssEntries(content: string): seq<SubtitleEntry> {
    RunAss(Start, Split(content, LineBreak)).entries
  }

  lemma AssRunStep(st: AssState, lines: seq<string>, i: nat)
    requires ColumnsSet(st) && i < |lines|
    ensures RunAss(st, lines[i..]) == RunAss(AssStep(st, lines[i]), lines[i + 1..])
  {
    assert lines[i..][1..] == lines[i + 1..];
  }

  /** `parseASS`. */
  method ParseAss(content: string) returns (entries: seq<SubtitleEntry>)
    ensures entries == AssEntries(content)
  {
    var lines := Split(content, LineBreak);
    entries := [];
    var inEvents := false;
    var textIndex := -1;
    var startIndex := -1;
    var endIndex := -1;
    var id := 1;
    var i := 0;
    while i < |lines|
      invariant i <= |lines|
      invariant textIndex >= -1 && startIndex >= -1 && endIndex >= -1
      invariant RunAss(Start, lines)
                == RunAss(AssState(inEvents, textIndex, startIndex, endIndex, id, entries), lines[i..])
    {
      ghost var before := AssState(inEvents, textIndex, startIndex, endIndex, id, entries);
      AssRunStep(before, lines, i);
      ghost var next := AssStep(before, lines[i]);
      var line := lines[i];
      i := i + 1;
      if Trim(line) == "[Events]" {
        inEvents := true;
      } else if inEvents && "Format:" <= line {
        var formatLine := Trim(line[7..]);
        var formats := TrimAll(Split(formatLine, Literal(",")));
        textIndex := FindColumn(formats, "text");
        startIndex := FindColumn(formats, "start");
        endIndex := FindColumn(formats, "end");
      } else if inEvents && "Dialogue:" <= line && textIndex != -1 && startIndex != -1 && endIndex != -1 {
        var parts := SplitAssLine(Trim(line[9..]));
        if |parts| > Max3(textIndex, startIndex, endIndex) {
          var startTime := ConvertAssTime(parts[startIndex]);
          var endTime := ConvertAssTime(parts[endIndex]);
          var text := RemoveOverrides(parts[textIndex]);
          text := LineBreaks(text);
          entries := entries + [SubtitleEntry(Int(id), startTime, endTime, text)];
          id := id + 1;
        }
      }
      assert next == AssState(inEvents, textIndex, startIndex, endIndex, id, entries);
    }
    assert lines[i..] == [];
  }

  // ---------------------------------------------------------------- properties

  /** The entries carry ids 1, 2, 3, ... and the counter is the next one. */
  predicate IdsFromOne(st: AssState) {
    st.id == |st.entries| + 1 && forall k :: 0 <= k < |st.entries| ==> st.entries[k].id == Int(k + 1)
  }

  lemma {:induction false} RunAssIds(st: AssState, lines: seq<string>)
    requires ColumnsSet(st) && IdsFromOne(st)
    ensures IdsFromOne(RunAss(st, lines))
    decreases |lines|
  {
    if lines != [] {
      AssStepIds(st, lines[0]);
      RunAssIds(AssStep(st, lines[0]), lines[1..]);
    }
  }

  lemma AssStepIds(st: AssState, line: string)
    requires ColumnsSet(st) && IdsFromOne(st)
    ensures IdsFromOne(AssStep(st, line))
  {
    var r := AssStep(st, line);
    if r.entries != st.entries || r.id != st.id {
      assert r == ReadDialogue(st, line);
      assert r.entries == st.entries + [r.entries[|st.entries|]];
      IdsOneMore(st, r);
    }
  }

  lemma IdsOneMore(st: AssState, r: AssState)
    requires IdsFromOne(st) && r.id == st.id + 1 && |r.entries| == |st.entries| + 1
    requires r.entries[..|st.entries|] == st.entries && r.entries[|st.entries|].id == Int(st.id)
    ensures IdsFromOne(r)
  {
    forall k | 0 <= k < |r.entries| ensures r.entries[k].id == Int(k + 1) {
      if k < |st.entries| {
        assert r.entries[k] == r.entries[..|st.entries|][k];
      }
    }
  }

  /** `parseASS` numbers its entries 1, 2, 3, ... in the order of their lines. */
  lemma AssEntriesIds(content: string)
    ensures forall k :: 0 <= k < |AssEntries(content)| ==> AssEntries(content)[k].id == Int(k + 1)
  {
    RunAssIds(Start, Split(content, LineBreak));
  }

  /** A non-blank first character stays first after trimming. */
  lemma TrimKeepsHead(s: string)
    requires s != [] && !IsSpace(s[0])
    ensures Trim(s) != [] && Trim(s)[0] == s[0]
  {
    assert TrimStart(s) == s;
  }

  /** A `Dialogue:` line adds an entry exactly when it comes inside `[Events]`, after a Format
      line that named the three columns, and has more fields than the largest of their
      indices; the entry is read from those columns. */
  lemma DialogueStep(st: AssState, line: string, parts: seq<string>)
    requires ColumnsSet(st) && "Dialogue:" <= line && parts == LineFields(Trim(line[9..]))
    ensures Accepted(st, parts)
            ==> AssStep(st, line)
                == st.(entries := st.entries + [DialogueEntry(st.id, parts, st.textIndex, st.startIndex, st.endIndex)],
                       id := st.id + 1)
    ensures !Accepted(st, parts) ==> AssStep(st, line) == st
  {
    if st.inEvents && st.textIndex >= 0 && st.startIndex >= 0 && st.endIndex >= 0 {
      assert AssStep(st, line) == ReadDialogue(st, line) by { DialogueGate(st, line); }
      assert ReadDialogue(st, line) == ReadFields(st, parts);
      if Accepted(st, parts) {
        ReadFieldsAccepted(st, parts);
      }
    } else {
      DialogueGate(st, line);
    }
  }

  lemma ReadFieldsAccepted(st: AssState, parts: seq<string>)
    requires st.textIndex >= 0 && st.startIndex >= 0 && st.endIndex >= 0
    requires |parts| > Max3(st.textIndex, st.startIndex, st.endIndex)
    ensures ReadFields(st, parts)
            == st.(entries := st.entries + [DialogueEntry(st.id, parts, st.textIndex, st.startIndex, st.endIndex)],
                   id := st.id + 1)
  {
  }

  /** The conditions under which `parseASS` reads a `Dialogue:` line with these fields. */
  predicate Accepted(st: AssState, parts: seq<string>) {
    st.inEvents && st.textIndex >= 0 && st.startIndex >= 0 && st.endIndex >= 0
    && |parts| > Max3(st.textIndex, st.startIndex, st.endIndex)
  }

  lemma DialogueGate(st: AssState, line: string)
    requires ColumnsSet(st) && "Dialogue:" <= line
    ensures st.inEvents && st.textIndex >= 0 && st.startIndex >= 0 && st.endIndex >= 0
            ==> AssStep(st, line) == ReadDialogue(st, line)
    ensures !(st.inEvents && st.textIndex >= 0 && st.startIndex >= 0 && st.endIndex >= 0)
            ==> AssStep(st, line) == st
  {
    DialogueLine(line);
  }

  /** A `Dialogue:` line is neither the `[Events]` line nor a `Format:` line. */
  lemma DialogueLine(line: string)
    requires "Dialogue:" <= line
    ensures Trim(line) != "[Events]" && !("Format:" <= line)
  {
    assert line[0] == 'D';
    TrimKeepsHead(line);
  }

  /** Outside `[Events]` a line that does not open it changes nothing. */
  lemma {:induction false} OutsideEvents(st: AssState, lines: seq<string>)
    requires ColumnsSet(st) && !st.inEvents
    requires forall i :: 0 <= i < |lines| ==> Trim(lines[i]) != "[Events]"
    ensures RunAss(st, lines) == st
    decreases |lines|
  {
    if lines != [] {
      OutsideEvents(st, lines[1..]);
    }
  }

  /** Input without an `[Events]` line gives no entries. */
  lemma NoEventsNoEntries(content: string)
    requires forall i :: 0 <= i < |Split(content, LineBreak)| ==> Trim(Split(content, LineBreak)[i]) != "[Events]"
    ensures AssEntries(content) == []
  {
    OutsideEvents(Start, Split(content, LineBreak));
  }

  /** Without a `Format:` line the columns stay unset and no entry is added. */
  lemma {:induction false} WithoutFormat(st: AssState, lines: seq<string>)
    requires ColumnsSet(st) && st.textIndex == -1
    requires forall i :: 0 <= i < |lines| ==> !("Format:" <= lines[i])
    ensures RunAss(st, lines).entries == st.entries && RunAss(st, lines).textIndex == -1
    decreases |lines|
  {
    if lines != [] {
      WithoutFormat(AssStep(st, lines[0]), lines[1..]);
    }
  }

  /** Input without a `Format:` line gives no entries. */
  lemma NoFormatNoEntries(content: string)
    requires forall i :: 0 <= i < |Split(content, LineBreak)| ==> !("Format:" <= Split(content, LineBreak)[i])
    ensures AssEntries(content) == []
  {
    WithoutFormat(Start, Split(content, LineBreak));
  }

  /** name names exactly one column. */
  predicate NamedOnce(formats: seq<string>, name: string) {
    forall i, j ::
      0 <= i < |formats| && 0 <= j < |formats| && LowerAscii(formats[i]) == name && LowerAscii(formats[j]) == name
      ==> i == j
  }

  /** perm is a permutation of the indices below its length, and inv its inverse. */
  predicate IsPermutation(perm: seq<nat>, inv: seq<nat>) {
    |inv| == |perm|
    && (forall i :: 0 <= i < |perm| ==> perm[i] < |perm| && inv[perm[i]] == i)
    && (forall j :: 0 <= j < |inv| ==> inv[j] < |perm| && perm[inv[j]] == j)
  }

  /** Moving the columns moves the column `findIndex` finds along with them. */
  lemma FindColumnPermuted(formats: seq<string>, moved: seq<string>, perm: seq<nat>, inv: seq<nat>, name: string)
    requires |moved| == |formats| == |perm| && IsPermutation(perm, inv)
    requires forall i :: 0 <= i < |moved| ==> moved[i] == formats[perm[i]]
    requires NamedOnce(formats, name)
    ensures FindColumn(formats, name) == -1 <==> FindColumn(moved, name) == -1
    ensures FindColumn(moved, name) >= 0 ==> perm[FindColumn(moved, name)] == FindColumn(formats, name)
  {
    var k := FindColumn(formats, name);
    var m := FindColumn(moved, name);
    if k >= 0 {
      assert LowerAscii(moved[inv[k]]) == name;
      assert m >= 0;
      assert LowerAscii(formats[perm[m]]) == name;
    }
  }

  /** Permuting the columns of the Format line and of a Dialogue line in the same way gives
      the same entry: the columns are found by name, not by place. */
  lemma ColumnPermutation(formats: seq<string>, parts: seq<string>, moved: seq<string>,
                          movedParts: seq<string>, perm: seq<nat>, inv: seq<nat>, id: int)
    requires |formats| == |parts| == |perm| == |moved| == |movedParts| && IsPermutation(perm, inv)
    requires forall i :: 0 <= i < |perm| ==> moved[i] == formats[perm[i]] && movedParts[i] == parts[perm[i]]
    requires NamedOnce(formats, "text") && NamedOnce(formats, "start") && NamedOnce(formats, "end")
    requires FindColumn(formats, "text") >= 0 && FindColumn(formats, "start") >= 0 && FindColumn(formats, "end") >= 0
    ensures FindColumn(moved, "text") >= 0 && FindColumn(moved, "start") >= 0 && FindColumn(moved, "end") >= 0
    ensures DialogueEntry(id, movedParts, FindColumn(moved, "text"), FindColumn(moved, "start"), FindColumn(moved, "end"))
            == DialogueEntry(id, parts, FindColumn(formats, "text"), FindColumn(formats, "start"), FindColumn(formats, "end"))
  {
    var t, s, e := FindColumn(formats, "text"), FindColumn(formats, "start"), FindColumn(formats, "end");
    var mt, ms, me := FindColumn(moved, "text"), FindColumn(moved, "start"), FindColumn(moved, "end");
    assert mt >= 0 && movedParts[mt] == parts[t] by { FindColumnPermuted(formats, moved, perm, inv, "text"); }
    assert ms >= 0 && movedParts[ms] == parts[s] by { FindColumnPermuted(formats, moved, perm, inv, "start"); }
    assert me >= 0 && movedParts[me] == parts[e] by { FindColumnPermuted(formats, moved, perm, inv, "end"); }
    SameFieldsSameEntry(id, movedParts, mt, ms, me, parts, t, s, e);
  }

  lemma SameFieldsSameEntry(id: int, p: seq<string>, t: nat, s: nat, e: nat,
                            q: seq<string>, t': nat, s': nat, e': nat)
    requires t < |p| && s < |p| && e < |p| && t' < |q| && s' < |q| && e' < |q|
    requires p[t] == q[t'] && p[s] == q[s'] && p[e] == q[e']
    ensures DialogueEntry(id, p, t, s, e) == DialogueEntry(id, q, t', s', e')
  {
  }
}
