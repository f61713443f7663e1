/** SubRip in parser.ts: `parseSRT` (parser.ts:16-37) and `exportToSRT` (parser.ts:225-231). */
module SrtFormat {
  import opened JsString
  import opened Timecode
  import opened Entries

  // ---------------------------------------------------------------- parsing

  /** The blocks of a file: the trimmed content cut at every single blank line. */
  function Blocks(content: string): seq<string> {
    Split(Trim(content), BlankLine)
  }

  /** The entry one block yields, if any: a block of three or more lines whose second line
      holds an SRT timing (parser.ts:21-33). */
  function BlockEntry(block: string): Option<SubtitleEntry> {
    var lines := Split(block, LineBreak);
    if |lines| < 3 then None
    else
      match FindTiming(lines[1], ',')
      case None => None
      case Some(stamps) => Some(SubtitleEntry(ParseInt(Trim(lines[0]), Ten), stamps.0, stamps.1,
                                              Join(lines[2..], "\n")))
  }

  /** A block yields an entry exactly when it has three or more lines and its second line
      holds a timing; the entry's stamps are the two stamps of the leftmost timing, its id is
      the decimal parse of the trimmed first line and its text is the remaining lines joined
      with line feeds. */
  lemma BlockEntryCases(block: string)
    ensures var lines := Split(block, LineBreak);
            BlockEntry(block).Some? <==> |lines| >= 3 && exists p: nat :: TimingAt(lines[1], p, ',')
    ensures var lines := Split(block, LineBreak);
            BlockEntry(block).Some? ==>
              var e := BlockEntry(block).value;
              IsStamp(e.startTime, ',') && IsStamp(e.endTime, ',')
              && Some((e.startTime, e.endTime)) == FindTiming(lines[1], ',')
              && e.id == ParseInt(Trim(lines[0]), Ten)
              && e.text == Join(lines[2..], "\n")
  {
  }

  /** The entries of a sequence of blocks, in block order. */
  function BlockEntries(blocks: seq<string>): (r: seq<SubtitleEntry>)
    ensures |r| <= |blocks|
  {
    if blocks == [] then [] else ToSeq(BlockEntry(blocks[0])) + BlockEntries(blocks[1..])
  }

  /** What `parseSRT` returns for a file. */
  function SrtEntries(content: string): seq<SubtitleEntry> {
    BlockEntries(Blocks(content))
  }

  /** `parseSRT`: the trimmed content is cut into blocks; the entry of each block of three or
      more lines whose second line holds a timing is pushed, every other block is skipped. */
  method ParseSrt(content: string) returns (entries: seq<SubtitleEntry>)
    ensures entries == SrtEntries(content)
  {
    var blocks := Split(Trim(content), BlankLine);
    entries := ReadBlocks(blocks);
  }

  /** The loop of `parseSRT` over the blocks, pushing the entry of each block that yields one. */
  method ReadBlocks(blocks: seq<string>) returns (entries: seq<SubtitleEntry>)
    ensures entries == BlockEntries(blocks)
  {
    entries := [];
    var k := 0;
    while k < |blocks|
      invariant k <= |blocks|
      invariant entries + BlockEntries(blocks[k..]) == BlockEntries(blocks)
    {
      PushBlock(blocks, k, entries);
      entries := ReadBlock(entries, blocks[k]);
      k := k + 1;
    }
    assert blocks[|blocks|..] == [];
  }

  /** The body of the loop of `parseSRT` on one block: the entries with the block's entry pushed,
      if it yields one. */
  method ReadBlock(entries: seq<SubtitleEntry>, block: string) returns (pushed: seq<SubtitleEntry>)
    ensures pushed == entries + ToSeq(BlockEntry(block))
  {
    var lines := Split(block, LineBreak);
    if |lines| < 3 {
      return entries;
    }
    var id := ParseInt(Trim(lines[0]), Ten);
    var timeMatch := FindTiming(lines[1], ',');
    if timeMatch.None? {
      return entries;
    }
    var text := Join(lines[2..], "\n");
    pushed := entries + [SubtitleEntry(id, timeMatch.value.0, timeMatch.value.1, text)];
  }

  /** One turn of the loop of `parseSRT`: the entries pushed so far, then what the block
      yields, then the entries of the later blocks are the entries of all blocks. */
  lemma PushBlock(blocks: seq<string>, k: nat, entries: seq<SubtitleEntry>)
    requires k < |blocks| && entries + BlockEntries(blocks[k..]) == BlockEntries(blocks)
    ensures entries + ToSeq(BlockEntry(blocks[k])) + BlockEntries(blocks[k + 1..]) == BlockEntries(blocks)
  {
    BlockEntriesStep(blocks, k);
    SeqAssoc(entries, ToSeq(BlockEntry(blocks[k])), BlockEntries(blocks[k + 1..]));
  }

  /** One block of the loop of `ParseSrt`. */
  lemma BlockEntriesStep(blocks: seq<string>, k: nat)
    requires k < |blocks|
    ensures BlockEntries(blocks[k..]) == ToSeq(BlockEntry(blocks[k])) + BlockEntries(blocks[k + 1..])
  {
    assert blocks[k..][1..] == blocks[k + 1..];
  }

  /** Entries come out in block order: the blocks of a concatenation give the concatenated
      entries. */
  lemma {:induction false} BlockEntriesAppend(a: seq<string>, b: seq<string>)
    ensures BlockEntries(a + b) == BlockEntries(a) + BlockEntries(b)
    decreases |a|
  {
    if a == [] {
      assert a + b == b;
    } else {
      var x := ToSeq(BlockEntry(a[0]));
      assert (a + b)[0] == a[0] && (a + b)[1..] == a[1..] + b;
      assert BlockEntries(a + b) == x + BlockEntries(a[1..] + b);
      BlockEntriesAppend(a[1..], b);
      SeqAssoc(x, BlockEntries(a[1..]), BlockEntries(b));
    }
  }

  // ---------------------------------------------------------------- export

  /** One cue without its trailing line feed: number, timing line, text. */
  function Cue(number: string, e: SubtitleEntry): string {
    number + "\n" + e.startTime + Arrow + e.endTime + "\n" + e.text
  }

  /** The blocks `exportToSRT` maps the entries to, numbered from first. */
  function ExportBlocks(es: seq<SubtitleEntry>, first: nat): (r: seq<string>)
    ensures |r| == |es|
    ensures forall k :: 0 <= k < |es| ==> r[k] == Cue(NatToString(first + k), es[k]) + "\n"
  {
    if es == [] then [] else [Cue(NatToString(first), es[0]) + "\n"] + ExportBlocks(es[1..], first + 1)
  }

  /** `exportToSRT`: the entries renumbered from 1, each block ending in a line feed, the
      blocks joined with a line feed. The ids of the entries are not written. */
  function ExportToSrt(es: seq<SubtitleEntry>): string {
    Join(ExportBlocks(es, 1), "\n")
  }

  /** The cues of the entries numbered from first, without line feeds around them. */
  function Cues(es: seq<SubtitleEntry>, first: nat): (r: seq<string>)
    ensures |r| == |es|
    ensures forall k :: 0 <= k < |es| ==> r[k] == Cue(NatToString(first + k), es[k])
  {
    if es == [] then [] else [Cue(NatToString(first), es[0])] + Cues(es[1..], first + 1)
  }

  // ---------------------------------------------------------------- round trip

  /** No carriage return, no blank line inside, no line feed at the end. */
  predicate NoBlankLine(s: string) {
    (forall k :: 0 <= k < |s| ==> s[k] != '\r')
    && (forall k :: 0 <= k < |s| - 1 ==> !(s[k] == '\n' && s[k + 1] == '\n'))
    && (s != [] ==> s[|s| - 1] != '\n')
  }

  /** A cue text that survives the block and line split: non-empty, no carriage return, no
      empty line, no line feed at either end. */
  predicate CueText(t: string) {
    t != [] && t[0] != '\n' && NoBlankLine(t)
  }

  /** The last character of t is there and is not white space. */
  predicate EndsInNonSpace(t: string) {
    t != [] && !IsSpace(t[|t| - 1])
  }

  /** An entry that `exportToSRT` writes so that `parseSRT` reads it back. */
  predicate Exportable(e: SubtitleEntry) {
    IsStamp(e.startTime, ',') && IsStamp(e.endTime, ',') && CueText(e.text)
  }

  /** The timing line of an exportable entry is one line. */
  lemma TimingSingleLine(e: SubtitleEntry)
    requires IsStamp(e.startTime, ',') && IsStamp(e.endTime, ',')
    ensures SingleLine(e.startTime + Arrow + e.endTime)
  {
    StampsSingleLine(e.startTime, e.endTime, ',');
  }

  /** Joining two pieces with a line feed makes no blank line when neither side has one and the
      second does not start with a line feed. */
  lemma NoBlankLineJoin(a: string, b: string)
    requires a != [] && NoBlankLine(a) && b != [] && b[0] != '\n' && NoBlankLine(b)
    ensures NoBlankLine(a + "\n" + b)
  {
    var s := a + "\n" + b;
    forall k | 0 <= k < |s| - 1 ensures !(s[k] == '\n' && s[k + 1] == '\n') {
      if k < |a| - 1 {
        assert s[k] == a[k] && s[k + 1] == a[k + 1];
      } else if k == |a| - 1 {
        assert s[k] == a[|a| - 1];
      } else if k == |a| {
        assert s[k + 1] == b[0];
      } else {
        assert s[k] == b[k - |a| - 1] && s[k + 1] == b[k - |a|];
      }
    }
    forall k | 0 <= k < |s| ensures s[k] != '\r' {
      if k < |a| {
        assert s[k] == a[k];
      } else if k > |a| {
        assert s[k] == b[k - |a| - 1];
      }
    }
    assert s[|s| - 1] == b[|b| - 1];
  }

  /** A cue of an exportable entry is one block: no blank line in it. */
  lemma CueNoBlankLine(number: string, e: SubtitleEntry)
    requires number != [] && SingleLine(number)
    requires Exportable(e)
    ensures NoBlankLine(Cue(number, e))
    ensures Cue(number, e)[0] == number[0]
  {
    var timing := e.startTime + Arrow + e.endTime;
    TimingSingleLine(e);
    NoBlankLineJoin(timing, e.text);
    assert (timing + "\n" + e.text)[0] == timing[0] == e.startTime[0];
    NoBlankLineJoin(number, timing + "\n" + e.text);
    assert Cue(number, e) == number + "\n" + (timing + "\n" + e.text);
  }

  /** The lines of a cue are its number, its timing line and the lines of its text. */
  lemma CueLines(number: string, e: SubtitleEntry)
    requires SingleLine(number) && SingleLine(e.startTime + Arrow + e.endTime)
    ensures Split(Cue(number, e), LineBreak)
            == [number, e.startTime + Arrow + e.endTime] + Split(e.text, LineBreak)
  {
    var timing := e.startTime + Arrow + e.endTime;
    CueAssoc(number, e);
    LineBeforeRest(number, timing + "\n" + e.text);
    LineBeforeRest(timing, e.text);
    assert [number] + ([timing] + Split(e.text, LineBreak)) == [number, timing] + Split(e.text, LineBreak);
  }

  lemma CueAssoc(number: string, e: SubtitleEntry)
    ensures Cue(number, e) == number + "\n" + (e.startTime + Arrow + e.endTime + "\n" + e.text)
  {
  }

  /** `parseSRT` reads a cue written with number i back as the entry with id i. */
  lemma CueEntry(i: nat, e: SubtitleEntry)
    requires Exportable(e)
    ensures BlockEntry(Cue(NatToString(i), e)) == Some(e.(id := Int(i)))
  {
    var number := NatToString(i);
    var timing := e.startTime + Arrow + e.endTime;
    DigitsSingleLine(number);
    TimingSingleLine(e);
    CueLines(number, e);
    var lines := [number, timing] + Split(e.text, LineBreak);
    assert lines[2..] == Split(e.text, LineBreak);
    JoinSplitLines(e.text, []);
    assert [] + e.text == e.text;
    NumberReadsBack(i);
    TimingOfStamps(e.startTime, e.endTime, ',');
    BlockEntryOf(Cue(number, e), lines, Int(i), e.startTime, e.endTime, e.text);
  }

  /** The decimal number `exportToSRT` writes reads back as itself. */
  lemma NumberReadsBack(i: nat)
    ensures ParseInt(Trim(NatToString(i)), Ten) == Int(i)
  {
    var number := NatToString(i);
    assert !IsSpace(number[0]) && !IsSpace(number[|number| - 1]);
    assert Trim(number) == number;
    ParseIntDigits(number, Ten);
  }

  /** The entry of a block, from the pieces its lines give. */
  lemma BlockEntryOf(block: string, lines: seq<string>, id: JsInt, start: string, end: string,
                     text: string)
    requires Split(block, LineBreak) == lines && |lines| >= 3
    requires FindTiming(lines[1], ',') == Some((start, end))
    requires ParseInt(Trim(lines[0]), Ten) == id && Join(lines[2..], "\n") == text
    ensures BlockEntry(block) == Some(SubtitleEntry(id, start, end, text))
  {
  }

  /** The cues of exportable entries read back as the entries renumbered. */
  lemma {:induction false} CuesEntries(es: seq<SubtitleEntry>, first: nat)
    requires forall k :: 0 <= k < |es| ==> Exportable(es[k])
    ensures BlockEntries(Cues(es, first)) == Renumbered(es, first)
    decreases |es|
  {
    if es != [] {
      CueEntry(first, es[0]);
      CuesEntries(es[1..], first + 1);
      assert Cues(es, first)[1..] == Cues(es[1..], first + 1);
    }
  }

  /** The blocks written with a line feed after each and a line feed between them are the
      cues joined with blank lines, plus a final line feed. */
  lemma ExportBlocksJoin(es: seq<SubtitleEntry>, first: nat)
    requires es != []
    ensures Join(ExportBlocks(es, first), "\n") == Join(Cues(es, first), "\n\n") + "\n"
  {
    JoinLineEnded(ExportBlocks(es, first), Cues(es, first));
  }

  /** Pieces each ending in a line feed, joined with a line feed, are the pieces without it
      joined with a blank line, then a line feed. */
  lemma {:induction false} JoinLineEnded(xs: seq<string>, ys: seq<string>)
    requires |xs| == |ys| >= 1 && forall k :: 0 <= k < |xs| ==> xs[k] == ys[k] + "\n"
    ensures Join(xs, "\n") == Join(ys, "\n\n") + "\n"
    decreases |xs|
  {
    if |xs| > 1 {
      var xt, yt := xs[1..], ys[1..];
      forall k | 0 <= k < |xt| ensures xt[k] == yt[k] + "\n" {
        assert xt[k] == xs[k + 1] && yt[k] == ys[k + 1];
      }
      JoinLineEnded(xt, yt);
      JoinCons(xs[0], xt, "\n");
      JoinCons(ys[0], yt, "\n\n");
      LineEndedAssoc(ys[0], Join(yt, "\n\n"));
    }
  }

  lemma LineEndedAssoc(y: string, rest: string)
    ensures y + "\n" + "\n" + (rest + "\n") == y + "\n\n" + rest + "\n"
  {
  }

  /** Pieces without blank lines joined by blank lines split back into the pieces. */
  lemma {:induction false} SplitJoinBlocks(xs: seq<string>)
    requires |xs| >= 1 && forall i :: 0 <= i < |xs| ==> NoBlankLine(xs[i])
    ensures Split(Join(xs, "\n\n"), BlankLine) == xs
    decreases |xs|
  {
    if |xs| == 1 {
      assert NoBlankLine(xs[0]);
      SplitBlankSingle(xs[0], []);
      assert [] + xs[0] == xs[0];
    } else {
      SplitJoinBlocks(xs[1..]);
      assert Join(xs, "\n\n") == xs[0] + "\n\n" + Join(xs[1..], "\n\n");
      assert NoBlankLine(xs[0]);
      SplitBlankAppend(xs[0], Join(xs[1..], "\n\n"), []);
      assert [] + xs[0] == xs[0];
      assert xs == [xs[0]] + xs[1..];
    }
  }

  /** Round trip: `parseSRT(exportToSRT(es))` is es numbered from 1, when every stamp is well
      formed, every text is a cue text and the last text does not end in white space (the
      final `trim` would take it). */
  lemma ExportThenParse(es: seq<SubtitleEntry>)
    requires forall k :: 0 <= k < |es| ==> Exportable(es[k])
    requires es != [] ==> EndsInNonSpace(es[|es| - 1].text)
    ensures SrtEntries(ExportToSrt(es)) == Renumbered(es, 1)
  {
    if es == [] {
      ExportNothing();
    } else {
      ExportBlocksAreCues(es);
      CuesEntries(es, 1);
    }
  }

  /** No entries export to the empty string, which parses to no entries. */
  lemma ExportNothing()
    ensures SrtEntries(ExportToSrt([])) == []
  {
    assert ExportToSrt([]) == [];
    assert Trimmed([]);
    assert Blocks([]) == [[]];
    assert Split([], LineBreak) == [[]];
  }

  /** The blocks `parseSRT` cuts an export into are the cues. */
  lemma ExportBlocksAreCues(es: seq<SubtitleEntry>)
    requires es != [] && forall k :: 0 <= k < |es| ==> Exportable(es[k])
    requires EndsInNonSpace(es[|es| - 1].text)
    ensures Blocks(ExportToSrt(es)) == Cues(es, 1)
  {
    var cues := Cues(es, 1);
    var out := ExportToSrt(es);
    forall i | 0 <= i < |cues| ensures NoBlankLine(cues[i]) && cues[i] != [] {
      NumberedCueShape(cues[i], 1 + i, es[i]);
    }
    var joined := Join(cues, "\n\n");
    assert Trim(out) == joined by { ExportTrimmed(es, cues); }
    assert Split(joined, BlankLine) == cues by { SplitJoinBlocks(cues); }
    BlocksOfTrimmed(out, joined, cues);
  }

  /** Blocks without blank lines, joined with one blank line, are cut back into those blocks
      when the join has no white space at either end. */
  lemma JoinedBlocks(cues: seq<string>)
    requires |cues| >= 1 && forall i :: 0 <= i < |cues| ==> NoBlankLine(cues[i]) && cues[i] != []
    requires StartsInNonSpace(cues[0]) && EndsInNonSpace(cues[|cues| - 1])
    ensures Blocks(Join(cues, "\n\n")) == cues
  {
    var out := Join(cues, "\n\n");
    assert Trim(out) == out by { JoinTrimmed(cues, "\n\n"); }
    assert Split(out, BlankLine) == cues by { SplitJoinBlocks(cues); }
    BlocksOfTrimmed(out, out, cues);
  }

  lemma BlocksOfTrimmed(content: string, trimmed: string, blocks: seq<string>)
    requires Trim(content) == trimmed && Split(trimmed, BlankLine) == blocks
    ensures Blocks(content) == blocks
  {
  }

  /** Trimming an export takes off the final line feed and nothing else. */
  lemma ExportTrimmed(es: seq<SubtitleEntry>, cues: seq<string>)
    requires es != [] && forall k :: 0 <= k < |es| ==> Exportable(es[k])
    requires EndsInNonSpace(es[|es| - 1].text)
    requires cues == Cues(es, 1) && forall i :: 0 <= i < |cues| ==> cues[i] != []
    ensures Trim(ExportToSrt(es)) == Join(cues, "\n\n")
  {
    var joined := Join(cues, "\n\n");
    assert ExportToSrt(es) == joined + "\n" by { ExportBlocksJoin(es, 1); }
    CuesEdges(es, cues);
    JoinTrimmed(cues, "\n\n");
    TrimNewline(joined);
  }

  /** The cues of an export start and end with a non-space. */
  lemma CuesEdges(es: seq<SubtitleEntry>, cues: seq<string>)
    requires es != [] && forall k :: 0 <= k < |es| ==> Exportable(es[k])
    requires EndsInNonSpace(es[|es| - 1].text)
    requires cues == Cues(es, 1)
    ensures |cues| >= 1 && StartsInNonSpace(cues[0]) && EndsInNonSpace(cues[|cues| - 1])
  {
    var last := |es| - 1;
    var c0, cl := cues[0], cues[last];
    assert c0 == Cue(NatToString(1), es[0]);
    assert cl == Cue(NatToString(1 + last), es[last]);
    NumberedCueEdges(1, es[0]);
    NumberedCueEdges(1 + last, es[last]);
  }

  /** A numbered cue is a block without a blank line. */
  lemma NumberedCueShape(c: string, n: nat, e: SubtitleEntry)
    requires Exportable(e) && c == Cue(NatToString(n), e)
    ensures c != [] && NoBlankLine(c)
  {
    DigitsSingleLine(NatToString(n));
    CueNoBlankLine(NatToString(n), e);
  }

  /** A numbered cue starts with a digit and ends where its text ends. */
  lemma NumberedCueEdges(n: nat, e: SubtitleEntry)
    requires e.text != []
    ensures StartsInNonSpace(Cue(NatToString(n), e))
    ensures EndsInNonSpace(e.text) ==> EndsInNonSpace(Cue(NatToString(n), e))
  {
    var d := NatToString(n);
    assert IsDigit(d[0]);
    CueEnds(d, e);
  }

  /** A cue starts with the first digit of its number and ends with the last character of its
      text. */
  lemma CueEnds(number: string, e: SubtitleEntry)
    requires number != [] && !IsSpace(number[0]) && e.text != []
    ensures Cue(number, e) != [] && !IsSpace(Cue(number, e)[0])
    ensures Cue(number, e)[|Cue(number, e)| - 1] == e.text[|e.text| - 1]
    ensures StartsInNonSpace(Cue(number, e))
    ensures EndsInNonSpace(e.text) ==> EndsInNonSpace(Cue(number, e))
  {
  }

  predicate StartsInNonSpace(t: string) {
    t != [] && !IsSpace(t[0])
  }

  /** A join whose first part starts and whose last part ends with a non-space is trimmed. */
  lemma JoinTrimmed(xs: seq<string>, sep: string)
    requires |xs| >= 1 && forall i :: 0 <= i < |xs| ==> xs[i] != []
    requires StartsInNonSpace(xs[0]) && EndsInNonSpace(xs[|xs| - 1])
    ensures Join(xs, sep) != [] && Trimmed(Join(xs, sep))
  {
    JoinEnds(xs, sep);
  }

  /** Only a single blank line separates blocks: with two blank lines between two cues the
      second block starts with an empty line, its second line is the cue number, and the second
      cue is lost. */
  lemma DoubleBlankLineDropsCue(i: nat, e1: SubtitleEntry, j: nat, e2: SubtitleEntry)
    requires Exportable(e1) && Exportable(e2) && EndsInNonSpace(e2.text)
    ensures SrtEntries(Cue(NatToString(i), e1) + "\n\n\n" + Cue(NatToString(j), e2))
            == [e1.(id := Int(i))]
  {
    var c1 := Cue(NatToString(i), e1);
    var c2 := Cue(NatToString(j), e2);
    DigitsSingleLine(NatToString(i));
    DigitsSingleLine(NatToString(j));
    CueNoBlankLine(NatToString(i), e1);
    CueNoBlankLine(NatToString(j), e2);
    CueEnds(NatToString(i), e1);
    CueEnds(NatToString(j), e2);
    DoubleBlankLineBlocks(c1, c2);
    CueEntry(i, e1);
    ShiftedCueIsNoEntry(j, e2);
    assert BlockEntries([c1, "\n" + c2]) == [e1.(id := Int(i))] by {
      assert [c1, "\n" + c2][1..] == ["\n" + c2];
    }
  }

  /** The blocks of two blocks with two blank lines between them: the second keeps one of the
      line feeds. */
  lemma DoubleBlankLineBlocks(c1: string, c2: string)
    requires c1 != [] && NoBlankLine(c1) && !IsSpace(c1[0])
    requires c2 != [] && NoBlankLine(c2) && c2[0] != '\n' && !IsSpace(c2[|c2| - 1])
    ensures Blocks(c1 + "\n\n\n" + c2) == [c1, "\n" + c2]
  {
    NoBlankLineJoin2(c2);
    TrimmedAround(c1, "\n\n\n", c2);
    ThreeFeeds(c1, c2);
    TwoBlocks(c1, "\n" + c2);
  }

  lemma TrimmedAround(a: string, mid: string, b: string)
    requires a != [] && b != [] && !IsSpace(a[0]) && !IsSpace(b[|b| - 1])
    ensures Trim(a + mid + b) == a + mid + b
  {
    var s := a + mid + b;
    assert s[0] == a[0] && s[|s| - 1] == b[|b| - 1];
  }

  lemma ThreeFeeds(a: string, b: string)
    ensures a + "\n\n\n" + b == a + "\n\n" + ("\n" + b)
  {
  }

  /** Two pieces without blank lines around one blank line are two blocks. */
  lemma TwoBlocks(a: string, b: string)
    requires NoBlankLine(a) && NoBlankLine(b)
    ensures Split(a + "\n\n" + b, BlankLine) == [a, b]
  {
    SplitBlankSingle(b, []);
    SplitBlankAppend(a, b, []);
    assert [] + a == a && [] + b == b;
  }

  /** A cue after an empty line is no entry: its second line is the cue number. */
  lemma ShiftedCueIsNoEntry(j: nat, e: SubtitleEntry)
    requires Exportable(e)
    ensures BlockEntry("\n" + Cue(NatToString(j), e)) == None
  {
    var c := Cue(NatToString(j), e);
    assert "\n" + c == [] + "\n" + c;
    SplitLinesAppend([], c, []);
    DigitsSingleLine(NatToString(j));
    TimingSingleLine(e);
    CueLines(NatToString(j), e);
    DigitsAreNoTiming(NatToString(j), ',');
    assert Split([], LineBreak) == [[]];
    assert Split("\n" + c, LineBreak)[1] == NatToString(j);
  }

  /** A line feed before a cue makes no blank line. */
  lemma NoBlankLineJoin2(c: string)
    requires c != [] && c[0] != '\n' && NoBlankLine(c)
    ensures NoBlankLine("\n" + c)
  {
    var s := "\n" + c;
    forall k | 0 <= k < |s| - 1 ensures !(s[k] == '\n' && s[k + 1] == '\n') {
      if k > 0 {
        assert s[k] == c[k - 1] && s[k + 1] == c[k];
      }
    }
  }
}
