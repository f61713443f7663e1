/** subtitleUtils.ts: a second SRT parser and writer (subtitleUtils.ts:12-43), the `||||`
    segment transport between entries and the translation model (subtitleUtils.ts:49-74), the
    `[MODIFIED]` marker reader (subtitleUtils.ts:80-108) and the display helper
    (subtitleUtils.ts:114-117). The word-diff highlighter is in module Highlight. */
module SubtitleUtils {
  import opened JsString
  import opened Timecode
  import opened Entries
  import opened SrtFormat

  // ---------------------------------------------------------------- parseSRT, second copy

  /** The entry one block yields in the second parser. It differs from `BlockEntry` in two
      places: the timing line is trimmed before the search, and `parseInt` gets no radix. */
  function UtilBlockEntry(block: string): Option<SubtitleEntry> {
    var lines := Split(block, LineBreak);
    if |lines| < 3 then None
    else
      match FindTiming(Trim(lines[1]), ',')
      case None => None
      case Some(stamps) =>
        Some(SubtitleEntry(ParseInt(Trim(lines[0]), Absent), stamps.0, stamps.1, Join(lines[2..], "\n")))
  }

  /** A block yields an entry iff it has three or more lines and its second line, trimmed,
      holds a timing; the entry is the leftmost timing's stamps, the first line read with no
      radix, and the rest of the lines. */
  lemma UtilBlockEntryCases(block: string)
    ensures var lines := Split(block, LineBreak);
            UtilBlockEntry(block).Some? <==> |lines| >= 3 && exists p: nat :: TimingAt(Trim(lines[1]), p, ',')
    ensures var lines := Split(block, LineBreak);
            UtilBlockEntry(block).Some? ==>
              var e := UtilBlockEntry(block).value;
              IsStamp(e.startTime, ',') && IsStamp(e.endTime, ',')
              && Some((e.startTime, e.endTime)) == FindTiming(Trim(lines[1]), ',')
              && e.id == ParseInt(Trim(lines[0]), Absent)
              && e.text == Join(lines[2..], "\n")
  {
  }

  function UtilBlockEntries(blocks: seq<string>): (r: seq<SubtitleEntry>)
    ensures |r| <= |blocks|
  {
    if blocks == [] then [] else ToSeq(UtilBlockEntry(blocks[0])) + UtilBlockEntries(blocks[1..])
  }

  /** What the second `parseSRT` returns. */
  function UtilSrtEntries(content: string): seq<SubtitleEntry> {
    UtilBlockEntries(Blocks(content))
  }

  lemma UtilBlockEntriesStep(blocks: seq<string>, k: nat)
    requires k < |blocks|
    ensures UtilBlockEntries(blocks[k..]) == ToSeq(UtilBlockEntry(blocks[k])) + UtilBlockEntries(blocks[k + 1..])
  {
    assert blocks[k..][1..] == blocks[k + 1..];
  }

  /** The second `parseSRT`. */
  method ParseSrtUtil(content: string) returns (entries: seq<SubtitleEntry>)
    ensures entries == UtilSrtEntries(content)
  {
    var blocks := Split(Trim(content), BlankLine);
    entries := ReadUtilBlocks(blocks);
  }

  /** The loop of the second `parseSRT` over the blocks. */
  method ReadUtilBlocks(blocks: seq<string>) returns (entries: seq<SubtitleEntry>)
    ensures entries == UtilBlockEntries(blocks)
  {
    entries := [];
    var k := 0;
    while k < |blocks|
      invariant k <= |blocks|
      invariant entries + UtilBlockEntries(blocks[k..]) == UtilBlockEntries(blocks)
    {
      UtilPushBlock(blocks, k, entries);
      entries := ReadUtilBlock(entries, blocks[k]);
      k := k + 1;
    }
    assert blocks[|blocks|..] == [];
  }

  /** The body of the loop of this `parseSRT` on one block: the entries with the block's entry
      pushed, if it yields one. */
  method ReadUtilBlock(entries: seq<SubtitleEntry>, block: string) returns (pushed: seq<SubtitleEntry>)
    ensures pushed == entries + ToSeq(UtilBlockEntry(block))
  {
    var lines := Split(block, LineBreak);
    if |lines| < 3 {
      return entries;
    }
    var id := ParseInt(Trim(lines[0]), Absent);
    var timeLine := Trim(lines[1]);
    var timeMatch := FindTiming(timeLine, ',');
    if timeMatch.None? {
      return entries;
    }
    var text := Join(lines[2..], "\n");
    assert UtilBlockEntry(block) == Some(SubtitleEntry(id, timeMatch.value.0, timeMatch.value.1, text));
    pushed := entries + [SubtitleEntry(id, timeMatch.value.0, timeMatch.value.1, text)];
  }

  /** One turn of the loop of the second `parseSRT`. */
  lemma UtilPushBlock(blocks: seq<string>, k: nat, entries: seq<SubtitleEntry>)
    requires k < |blocks| && entries + UtilBlockEntries(blocks[k..]) == UtilBlockEntries(blocks)
    ensures entries + ToSeq(UtilBlockEntry(blocks[k])) + UtilBlockEntries(blocks[k + 1..]) == UtilBlockEntries(blocks)
  {
    UtilBlockEntriesStep(blocks, k);
    SeqAssoc(entries, ToSeq(UtilBlockEntry(blocks[k])), UtilBlockEntries(blocks[k + 1..]));
  }

  /** The two parsers read a hexadecimal index line differently: without a radix `0x10` is
      sixteen, with radix ten it is the zero before the `x`. */
  lemma HexIndexLine()
    ensures ParseInt("0x10", Absent) == Int(16)
    ensures ParseInt("0x10", Ten) == Int(0)
  {
    HexStart();
    HexWithoutRadix();
    HexWithRadixTen();
  }

  lemma HexStart()
    ensures TrimStart("0x10") == "0x10"
  {
  }

  lemma HexWithoutRadix()
    ensures ParseUnsigned("0x10", Absent) == Int(16)
  {
    var s := "0x10";
    assert s[2..] == "10";
    assert DigitPrefixLength("10", 16) == 2;
    assert "10"[..2] == "10" && "10"[..1] == "1";
    assert DigitsValue("10", 16) == 16;
  }

  lemma HexWithRadixTen()
    ensures ParseUnsigned("0x10", Ten) == Int(0)
  {
    var s := "0x10";
    assert DigitPrefixLength(s, 10) == 1;
    assert s[..1] == "0";
  }

  // ---------------------------------------------------------------- formatToSRT

  /** The cues `formatToSRT` writes: each entry under its own id, written as a JavaScript
      number. */
  function IdCues(es: seq<SubtitleEntry>): (r: seq<string>)
    ensures |r| == |es|
    ensures forall k :: 0 <= k < |es| ==> r[k] == Cue(IntToString(es[k].id), es[k])
  {
    if es == [] then [] else [Cue(IntToString(es[0].id), es[0])] + IdCues(es[1..])
  }

  /** `formatToSRT`: the cues, ids kept, joined with one blank line and no final line feed. */
  function FormatToSrt(es: seq<SubtitleEntry>): string {
    Join(IdCues(es), "\n\n")
  }

  /** The id line `formatToSRT` writes is one line with no white space at either end. */
  lemma IdLine(x: JsInt)
    ensures IntToString(x) != [] && SingleLine(IntToString(x)) && Trimmed(IntToString(x))
  {
    match x
    case NaN =>
    case Int(n) =>
      if n < 0 {
        DigitsLine(NatToString(-n));
      } else {
        DigitsLine(NatToString(n));
      }
  }

  /** A run of digits, with or without a minus sign, is one line with no white space at either
      end. */
  lemma DigitsLine(d: string)
    requires d != [] && forall k :: 0 <= k < |d| ==> IsDigit(d[k])
    ensures SingleLine(d) && Trimmed(d)
    ensures SingleLine("-" + d) && Trimmed("-" + d)
  {
    DigitsSingleLine(d);
    var s := "-" + d;
    assert s[|s| - 1] == d[|d| - 1];
    forall k | 0 <= k < |s| ensures s[k] != '\r' && s[k] != '\n' {
      if k > 0 {
        assert s[k] == d[k - 1];
      }
    }
  }

  /** The second parser reads a cue back as the entry it was written from. */
  lemma IdCueEntry(e: SubtitleEntry)
    requires Exportable(e)
    ensures UtilBlockEntry(Cue(IntToString(e.id), e)) == Some(e)
  {
    var number := IntToString(e.id);
    var timing := e.startTime + Arrow + e.endTime;
    IdLine(e.id);
    TimingSingleLine(e);
    CueLines(number, e);
    var lines := [number, timing] + Split(e.text, LineBreak);
    assert lines[2..] == Split(e.text, LineBreak);
    JoinSplitLines(e.text, []);
    assert [] + e.text == e.text;
    TimingTrimmed(e.startTime, e.endTime, ',');
    TimingOfStamps(e.startTime, e.endTime, ',');
    ParseIntToString(e.id, Absent);
    UtilBlockEntryOf(Cue(number, e), lines, e.id, e.startTime, e.endTime, e.text);
  }

  lemma UtilBlockEntryOf(block: string, lines: seq<string>, id: JsInt, start: string, end: string,
                         text: string)
    requires Split(block, LineBreak) == lines && |lines| >= 3
    requires FindTiming(Trim(lines[1]), ',') == Some((start, end))
    requires ParseInt(Trim(lines[0]), Absent) == id && Join(lines[2..], "\n") == text
    ensures UtilBlockEntry(block) == Some(SubtitleEntry(id, start, end, text))
  {
  }

  /** The cues of exportable entries read back as the entries. */
  lemma IdCuesEntries(es: seq<SubtitleEntry>)
    requires forall k :: 0 <= k < |es| ==> Exportable(es[k])
    ensures UtilBlockEntries(IdCues(es)) == es
  {
    var cues := IdCues(es);
    forall k | 0 <= k < |es| ensures UtilBlockEntry(cues[k]) == Some(es[k]) {
      IdCueEntry(es[k]);
    }
    OptionsOfBlocks(cues, es);
    PresentChain(cues, es);
  }

  /** Each entry as a present option. */
  function Somes(es: seq<SubtitleEntry>): (r: seq<Option<SubtitleEntry>>)
    ensures |r| == |es| && forall k :: 0 <= k < |es| ==> r[k] == Some(es[k])
  {
    if es == [] then [] else [Some(es[0])] + Somes(es[1..])
  }

  /** Blocks each of which yields its own entry yield those entries as options. */
  lemma OptionsOfBlocks(blocks: seq<string>, es: seq<SubtitleEntry>)
    requires |blocks| == |es| && forall k :: 0 <= k < |es| ==> UtilBlockEntry(blocks[k]) == Some(es[k])
    ensures forall k :: 0 <= k < |blocks| ==> Somes(es)[k] == UtilBlockEntry(blocks[k])
  {
  }

  lemma PresentChain(blocks: seq<string>, es: seq<SubtitleEntry>)
    requires |blocks| == |es|
    requires forall k :: 0 <= k < |blocks| ==> Somes(es)[k] == UtilBlockEntry(blocks[k])
    ensures UtilBlockEntries(blocks) == es
  {
    UtilEntriesPresentAll(blocks, Somes(es));
    PresentSomes(es);
  }

  lemma UtilEntriesPresentAll(blocks: seq<string>, opts: seq<Option<SubtitleEntry>>)
    requires |opts| == |blocks| && forall k :: 0 <= k < |blocks| ==> opts[k] == UtilBlockEntry(blocks[k])
    ensures UtilBlockEntries(blocks) == Present(opts)
  {
    UtilEntriesPresent(blocks, opts, 0);
    assert opts[0..] == opts && blocks[0..] == blocks;
  }

  lemma {:induction false} PresentSomes(es: seq<SubtitleEntry>)
    ensures Present(Somes(es)) == es
  {
    if es != [] {
      PresentSomes(es[1..]);
      assert Somes(es)[1..] == Somes(es[1..]);
    }
  }

  /** The entries of the present options, in order. */
  function Present(opts: seq<Option<SubtitleEntry>>): seq<SubtitleEntry> {
    if opts == [] then [] else ToSeq(opts[0]) + Present(opts[1..])
  }

  lemma {:induction false} UtilEntriesPresent(blocks: seq<string>, opts: seq<Option<SubtitleEntry>>, i: nat)
    requires |opts| == |blocks| && i <= |blocks|
    requires forall k :: 0 <= k < |blocks| ==> opts[k] == UtilBlockEntry(blocks[k])
    ensures UtilBlockEntries(blocks[i..]) == Present(opts[i..])
    decreases |blocks| - i
  {
    if i < |blocks| {
      UtilEntriesAt(blocks, i);
      UtilEntriesPresent(blocks, opts, i + 1);
      assert opts[i..][1..] == opts[i + 1..];
    } else {
      assert blocks[i..] == [] && opts[i..] == [];
    }
  }

  lemma UtilEntriesAt(blocks: seq<string>, i: nat)
    requires i < |blocks|
    ensures UtilBlockEntries(blocks[i..]) == ToSeq(UtilBlockEntry(blocks[i])) + UtilBlockEntries(blocks[i + 1..])
  {
    assert blocks[i..][1..] == blocks[i + 1..];
  }

  /** Round trip: the second `parseSRT` reads `formatToSRT(es)` back as es, ids included,
      when every stamp is well formed, every text is a cue text and the last text does not end
      in white space. */
  lemma FormatThenParse(es: seq<SubtitleEntry>)
    requires forall k :: 0 <= k < |es| ==> Exportable(es[k])
    requires es != [] ==> EndsInNonSpace(es[|es| - 1].text)
    ensures UtilSrtEntries(FormatToSrt(es)) == es
  {
    if es == [] {
      FormatNothing();
    } else {
      var content := FormatToSrt(es);
      var cues := IdCues(es);
      assert Blocks(content) == cues by { FormattedBlocks(es); }
      assert UtilBlockEntries(cues) == es by { IdCuesEntries(es); }
    }
  }

  /** No entries are written as the empty string, which reads back as no entries. */
  lemma FormatNothing()
    ensures UtilSrtEntries(FormatToSrt([])) == []
  {
    assert FormatToSrt([]) == [];
    assert Trimmed([]);
    assert Blocks([]) == [[]];
    assert Split([], LineBreak) == [[]];
  }

  /** The blocks the second parser cuts `formatToSRT(es)` into are the cues. */
  lemma FormattedBlocks(es: seq<SubtitleEntry>)
    requires es != [] && forall k :: 0 <= k < |es| ==> Exportable(es[k])
    requires EndsInNonSpace(es[|es| - 1].text)
    ensures Blocks(FormatToSrt(es)) == IdCues(es)
  {
    var cues := IdCues(es);
    IdCuesShape(es, cues);
    JoinedBlocks(cues);
  }

  /** The cues `formatToSRT` joins are blocks without blank lines, and the first starts and the
      last ends with a non-space. */
  lemma IdCuesShape(es: seq<SubtitleEntry>, cues: seq<string>)
    requires es != [] && forall k :: 0 <= k < |es| ==> Exportable(es[k])
    requires EndsInNonSpace(es[|es| - 1].text) && cues == IdCues(es)
    ensures |cues| >= 1 && forall i :: 0 <= i < |cues| ==> NoBlankLine(cues[i]) && cues[i] != []
    ensures StartsInNonSpace(cues[0]) && EndsInNonSpace(cues[|cues| - 1])
  {
    forall i | 0 <= i < |cues| ensures NoBlankLine(cues[i]) && cues[i] != [] {
      IdCueShape(cues[i], es[i]);
    }
    var last := |es| - 1;
    IdCueShape(cues[0], es[0]);
    IdCueShape(cues[last], es[last]);
  }

  /** A cue with its id kept is a block without a blank line that starts with a non-space and
      ends where its text ends. */
  lemma IdCueShape(c: string, e: SubtitleEntry)
    requires Exportable(e) && c == Cue(IntToString(e.id), e)
    ensures c != [] && NoBlankLine(c) && StartsInNonSpace(c)
    ensures EndsInNonSpace(e.text) ==> EndsInNonSpace(c)
  {
    IdLine(e.id);
    CueNoBlankLine(IntToString(e.id), e);
    CueEnds(IntToString(e.id), e);
  }

  // ---------------------------------------------------------------- the `||||` transport

  /** The texts of the entries, in order. */
  function Texts(es: seq<SubtitleEntry>): (r: seq<string>)
    ensures |r| == |es|
    ensures forall k :: 0 <= k < |es| ==> r[k] == es[k].text
  {
    if es == [] then [] else [es[0].text] + Texts(es[1..])
  }

  /** `entriesToText`: the texts joined with `||||`. */
  function EntriesToText(es: seq<SubtitleEntry>): string {
    Join(Texts(es), "||||")
  }

  /** `text.split('||||')`. */
  function Segments(text: string): (r: seq<string>)
    ensures |r| >= 1
  {
    Split(text, Literal("||||"))
  }

  function Min(a: int, b: int): int {
    if a <= b then a else b
  }

  /** The entries with text k replaced by segment k trimmed. */
  function Applied(es: seq<SubtitleEntry>, parts: seq<string>): (r: seq<SubtitleEntry>)
    requires |es| <= |parts|
    ensures |r| == |es|
    ensures forall k :: 0 <= k < |es| ==> r[k] == es[k].(text := Trim(parts[k]))
  {
    if es == [] then [] else [es[0].(text := Trim(parts[0]))] + Applied(es[1..], parts[1..])
  }

  /** The branch of `applyTextToEntries` over the segments: it never fails; when the counts
      differ only the first min(segments, entries) entries come back. Each keeps its id and
      timings, in order, and takes the trimmed segment of the same place as its text. */
  function ApplyParts(es: seq<SubtitleEntry>, parts: seq<string>): (r: seq<SubtitleEntry>)
    ensures |r| == Min(|parts|, |es|)
    ensures forall i :: 0 <= i < |r| ==>
              r[i].id == es[i].id && r[i].startTime == es[i].startTime && r[i].endTime == es[i].endTime
              && r[i].text == Trim(parts[i])
  {
    if |parts| != |es| then
      var n := Min(|parts|, |es|);
      Applied(es[..n], parts)
    else Applied(es, parts)
  }

  /** `applyTextToEntries`: the entries with the `||||` segments of text applied. */
  function ApplyTextToEntries(es: seq<SubtitleEntry>, text: string): seq<SubtitleEntry> {
    ApplyParts(es, Segments(text))
  }

  /** No `|` anywhere in the texts. */
  predicate NoPipe(es: seq<SubtitleEntry>) {
    forall i, k :: 0 <= i < |es| && 0 <= k < |es[i].text| ==> es[i].text[k] != '|'
  }

  /** Transport round trip: applying the flattened texts back onto the entries gives the
      entries with their texts trimmed, when no text holds a `|`. */
  lemma TransportRoundTrip(es: seq<SubtitleEntry>)
    requires NoPipe(es)
    ensures ApplyTextToEntries(es, EntriesToText(es)) == TrimmedTexts(es)
  {
    if es == [] {
      assert EntriesToText(es) == [];
      assert Segments([]) == [[]];
    } else {
      var texts := Texts(es);
      assert forall i, k :: 0 <= i < |texts| && 0 <= k < |texts[i]| ==> texts[i][k] != "||||"[0] by {
        forall i, k | 0 <= i < |texts| && 0 <= k < |texts[i]| ensures texts[i][k] != '|' {
          assert texts[i] == es[i].text;
        }
      }
      SplitJoinLiteral(texts, "||||");
    }
  }

  /** A text ending in `|` moves that bar into the next segment. */
  lemma TrailingPipeShifts()
    ensures Segments(Join(["a|", "b"], "||||")) == ["a", "|b"]
  {
    assert Join(["a|", "b"], "||||") == "a|||||b" by {
      JoinCons("a|", ["b"], "||||");
    }
    PipeRunSplit();
  }

  lemma PipeRunSplit()
    ensures Split("a|||||b", Literal("||||")) == ["a", "|b"]
  {
    LeadingLetterSplit();
    PipeRunMatch();
    ShortPipeSplit();
  }

  lemma LeadingLetterSplit()
    ensures SplitFrom("a|||||b", Literal("||||"), []) == SplitFrom("|||||b", Literal("||||"), "a")
  {
    var t := "a|||||b";
    assert t[0] != "||||"[0];
    SplitLiteralNoMatch(t, "||||", []);
    assert t[1..] == "|||||b" && [] + [t[0]] == "a";
  }

  lemma PipeRunMatch()
    ensures SplitFrom("|||||b", Literal("||||"), "a") == ["a"] + SplitFrom("|b", Literal("||||"), [])
  {
    var u := "|||||b";
    assert u[..4] == "||||";
    SplitLiteralMatch(u, "||||", "a");
    assert u[4..] == "|b";
  }

  lemma ShortPipeSplit()
    ensures SplitFrom("|b", Literal("||||"), []) == ["|b"]
  {
    var sep := "||||";
    var v, w := "|b", "b";
    assert SplitFrom(v, Literal(sep), []) == SplitFrom(w, Literal(sep), "|") by {
      SplitLiteralNoMatch(v, sep, []);
      assert v[1..] == w && [] + [v[0]] == "|";
    }
    SplitLiteralNoMatch(w, sep, "|");
    assert w[1..] == [] && "|" + [w[0]] == "|b";
  }

  // ---------------------------------------------------------------- [MODIFIED] segments

  /** One record of `parseModifiedSubtitles`. */
  datatype Repaired = Repaired(text: string, isModified: bool)

  const Marker: string := "[MODIFIED]"

  /** A segment of the repaired text: flagged when it holds the marker, its text with the
      first marker removed and then trimmed. */
  function ReadSegment(entry: string): Repaired {
    Repaired(Trim(ReplaceFirst(entry, Marker, "")), Contains(entry, Marker))
  }

  function ReadSegments(segments: seq<string>): (r: seq<Repaired>)
    ensures |r| == |segments|
    ensures forall k :: 0 <= k < |segments| ==> r[k] == ReadSegment(segments[k])
  {
    if segments == [] then [] else [ReadSegment(segments[0])] + ReadSegments(segments[1..])
  }

  /** `parseModifiedSubtitles`: one record per `||||` segment. */
  function ParseModifiedSubtitles(text: string): (r: seq<Repaired>)
    ensures |r| == |Segments(text)|
  {
    ReadSegments(Segments(text))
  }

  /** A trimmed segment without the marker reads as itself, unflagged; the same segment with
      the marker appended after a space reads as itself, flagged. */
  lemma MarkedSegment(s: string)
    requires Trim(s) == s && !Contains(s, Marker)
    ensures ReadSegment(s) == Repaired(s, false)
    ensures ReadSegment(s + " " + Marker) == Repaired(s, true)
  {
    PlainSegment(s);
    FlaggedSegment(s);
  }

  lemma PlainSegment(s: string)
    requires Trim(s) == s && !Contains(s, Marker)
    ensures ReadSegment(s) == Repaired(s, false)
  {
  }

  lemma FlaggedSegment(s: string)
    requires Trim(s) == s && !Contains(s, Marker)
    ensures ReadSegment(s + " " + Marker) == Repaired(s, true)
  {
    var t := s + " " + Marker;
    MarkerAfter(s);
    assert ReplaceFirst(t, Marker, "") == s + " ";
    if s == [] {
      TrimSpace();
    } else {
      TrimSpaceAfter(s);
    }
  }

  /** The first marker in s + " " + marker is the appended one. */
  lemma MarkerAfter(s: string)
    requires !Contains(s, Marker)
    ensures IndexOf(s + " " + Marker, Marker) == Some(|s| + 1)
  {
    var t := s + " " + Marker;
    assert t[|s| + 1..] == Marker;
    assert OccursAt(t, Marker, |s| + 1);
    forall k: nat | k <= |s| ensures !OccursAt(t, Marker, k) {
      if OccursAt(t, Marker, k) {
        if k + 10 <= |s| {
          assert t[k..k + 10] == s[k..k + 10];
          assert OccursAt(s, Marker, k);
        } else {
          OccursChar(t, Marker, k, |s|);
          assert false;
        }
      }
    }
  }

  lemma OccursChar(t: string, pat: string, k: nat, i: nat)
    requires OccursAt(t, pat, k) && k <= i < k + |pat|
    ensures t[i] == pat[i - k]
  {
    assert t[k..k + |pat|][i - k] == t[i];
  }

  lemma TrimSpace()
    ensures Trim(" ") == []
  {
    var t := " ";
    assert IsSpace(t[0]) && t[1..] == [];
    assert TrimStart(t) == [];
  }

  lemma TrimSpaceAfter(s: string)
    requires s != [] && Trimmed(s)
    ensures Trim(s + " ") == s
  {
    var t := s + " ";
    assert t[0] == s[0];
    assert TrimStart(t) == t;
    assert t[..|t| - 1] == s;
    assert TrimEnd(s) == s;
  }

  /** The example of a repaired reply: a flagged segment and a plain one. */
  lemma ModifiedExample(t: string)
    requires t == "foo [MODIFIED]||||bar"
    ensures ParseModifiedSubtitles(t) == [Repaired("foo", true), Repaired("bar", false)]
  {
    var segments := ["foo [MODIFIED]", "bar"];
    ExampleSegments(t, segments);
    ExampleFoo(segments[0]);
    ExampleBar(segments[1]);
    TwoSegments(segments, Repaired("foo", true), Repaired("bar", false));
  }

  lemma TwoSegments(segments: seq<string>, a: Repaired, b: Repaired)
    requires |segments| == 2 && ReadSegment(segments[0]) == a && ReadSegment(segments[1]) == b
    ensures ReadSegments(segments) == [a, b]
  {
    var r := ReadSegments(segments);
    assert r == [r[0], r[1]];
  }

  lemma ExampleSegments(t: string, segments: seq<string>)
    requires t == "foo [MODIFIED]||||bar" && segments == ["foo [MODIFIED]", "bar"]
    ensures Segments(t) == segments
  {
    assert Join(segments, "||||") == t;
    SplitJoinLiteral(segments, "||||");
  }

  lemma ExampleFoo(s: string)
    requires s == "foo [MODIFIED]"
    ensures ReadSegment(s) == Repaired("foo", true)
  {
    var foo := s[..3];
    assert foo == "foo" && s[3..4] == " " && s[4..] == Marker;
    NoMarkerIn(foo);
    assert Trim(foo) == foo by { assert Trimmed(foo); }
    assert s == foo + s[3..4] + s[4..];
    MarkedSegment(foo);
  }

  lemma ExampleBar(s: string)
    requires s == "bar"
    ensures ReadSegment(s) == Repaired("bar", false)
  {
    NoMarkerIn(s);
    assert Trim(s) == s by { assert Trimmed(s); }
    MarkedSegment(s);
  }

  lemma NoMarkerIn(s: string)
    requires |s| < |Marker|
    ensures !Contains(s, Marker)
  {
  }

  // ---------------------------------------------------------------- compareSubtitles

  /** The result of `compareSubtitles`. */
  datatype Comparison = Comparison(originalEntries: seq<string>, repairedEntries: seq<Repaired>)

  /** `compareSubtitles`: the trimmed original segments beside the repaired records, unpaired. */
  function CompareSubtitles(original: string, repaired: string): (r: Comparison)
    ensures |r.originalEntries| == |Segments(original)|
    ensures forall k :: 0 <= k < |r.originalEntries| ==> r.originalEntries[k] == Trim(Segments(original)[k])
    ensures r.repairedEntries == ParseModifiedSubtitles(repaired)
  {
    Comparison(TrimAll(Segments(original)), ParseModifiedSubtitles(repaired))
  }

  /** Nothing pairs the two lists: one original segment can stand beside two repaired ones. */
  lemma CompareUnpaired()
    ensures |CompareSubtitles("a", "b||||c").originalEntries| == 1
    ensures |CompareSubtitles("a", "b||||c").repairedEntries| == 2
  {
    assert Join(["b", "c"], "||||") == "b||||c";
    SplitJoinLiteral(["b", "c"], "||||");
    assert Join(["a"], "||||") == "a";
    SplitJoinLiteral(["a"], "||||");
  }

  // ---------------------------------------------------------------- formatSubtitleForDisplay

  /** `formatSubtitleForDisplay`: every line feed becomes `<br>`. */
  function FormatForDisplay(text: string): string {
    ReplaceAll(text, "\n", "<br>")
  }

  /** The display text holds no line feed, and on text without `<` writing each `<br>` back as
      a line feed restores it. */
  lemma DisplayRoundTrip(text: string)
    requires forall k :: 0 <= k < |text| ==> text[k] != '<'
    ensures ReplaceAll(FormatForDisplay(text), "<br>", "\n") == text
    ensures forall k :: 0 <= k < |FormatForDisplay(text)| ==> FormatForDisplay(text)[k] != '\n'
  {
    ReplaceAllBack(text);
    ReplaceAllRemoves(text, '\n', "<br>");
  }
}
