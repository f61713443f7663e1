/** WebVTT in parser.ts: `parseVTT` (parser.ts:42-88), a line-by-line state machine after the
    header is removed, and `exportToVTT` (parser.ts:236-242). */
module VttFormat {
  import opened JsString
  import opened Timecode
  import opened Entries

  // ---------------------------------------------------------------- header

  /** The characters `.` does not match: line feed, carriage return, line and paragraph
      separators. */
  predicate IsLineTerminator(c: char) {
    c == '\n' || c == '\r' || c == '\U{2028}' || c == '\U{2029}'
  }

  /** The first index at or after from that holds a line terminator, |s| if none. */
  function TerminatorFrom(s: string, from: nat): (q: nat)
    requires from <= |s|
    ensures from <= q <= |s|
    ensures forall k :: from <= k < q ==> !IsLineTerminator(s[k])
    ensures q < |s| ==> IsLineTerminator(s[q])
    decreases |s| - from
  {
    if from == |s| || IsLineTerminator(s[from]) then from else TerminatorFrom(s, from + 1)
  }

  /** Length of the greedy `(\r?\n)+` run at the start of s, 0 if none. */
  function NewlineRunLength(s: string): (n: nat)
    ensures n <= |s|
    ensures n == 0 <==> NewlineLength(s) == 0
    decreases |s|
  {
    var h := NewlineLength(s);
    if h == 0 then 0 else h + NewlineRunLength(s[h..])
  }

  /** s starts with `WEBVTT` in any ASCII case (the `i` flag without `u` folds no other
      character onto these letters). */
  predicate StartsWithWebvtt(s: string) {
    |s| >= 6 && LowerChar(s[0]) == 'w' && LowerChar(s[1]) == 'e' && LowerChar(s[2]) == 'b'
    && LowerChar(s[3]) == 'v' && LowerChar(s[4]) == 't' && LowerChar(s[5]) == 't'
  }

  /** Length of the match of `/^WEBVTT.*?(\r?\n)+/i`, 0 if it does not match: `WEBVTT` in any
      ASCII case, then the rest of the first line (the lazy `.*?` stops at the first line
      terminator, which must begin a `\r?\n`), then every following line break. */
  function HeaderLength(s: string): (n: nat)
    ensures n <= |s|
    ensures n > 0 ==> |s| > 6 && StartsWithWebvtt(s)
  {
    if !StartsWithWebvtt(s) then 0
    else
      var q := TerminatorFrom(s, 6);
      var run := NewlineRunLength(s[q..]);
      if run == 0 then 0 else q + run
  }

  /** `content.replace(/^WEBVTT.*?(\r?\n)+/i, '')`. */
  function StripHeader(content: string): string {
    content[HeaderLength(content)..]
  }

  // ---------------------------------------------------------------- state machine

  /** The variables of the loop of `parseVTT`. */
  datatype VttState = VttState(id: int, startTime: string, endTime: string, text: string,
                               inCue: bool, entries: seq<SubtitleEntry>)

  const Init := VttState(1, [], [], [], false, [])

  /** The trimmed line is a cue timing line. */
  predicate IsTimingLine(raw: string) {
    FindTiming(Trim(raw), '.').Some?
  }

  /** One iteration of the loop of `parseVTT` on a raw line. */
  function Step(st: VttState, raw: string): VttState {
    var line := Trim(raw);
    if line == [] then
      if st.inCue && st.startTime != [] && st.endTime != [] then
        st.(entries := st.entries + [SubtitleEntry(Int(st.id), st.startTime, st.endTime, Trim(st.text))],
            text := [], inCue := false)
      else st
    else
      match FindTiming(line, '.')
      case Some(stamps) =>
        st.(startTime := ReplaceFirst(stamps.0, ".", ","), endTime := ReplaceFirst(stamps.1, ".", ","),
            inCue := true, id := st.id + 1)
      case None =>
        if st.inCue && !AllDigits(line) then
          st.(text := st.text + (if st.text != [] then "\n" else []) + line)
        else st
  }

  /** The loop of `parseVTT` over the lines, from state st. */
  function Run(st: VttState, lines: seq<string>): VttState
    decreases |lines|
  {
    if lines == [] then st else Run(Step(st, lines[0]), lines[1..])
  }

  /** The flush after the loop: the open cue is emitted only when its text is non-empty. */
  function Finish(st: VttState): seq<SubtitleEntry> {
    if st.inCue && st.startTime != [] && st.endTime != [] && st.text != [] then
      st.entries + [SubtitleEntry(Int(st.id), st.startTime, st.endTime, Trim(st.text))]
    else st.entries
  }

  /** The lines `parseVTT` iterates over. */
  function VttLines(content: string): seq<string> {
    Split(StripHeader(content), LineBreak)
  }

  /** What `parseVTT` returns. */
  function VttEntries(content: string): seq<SubtitleEntry> {
    Finish(Run(Init, VttLines(content)))
  }

  /** Folding over a concatenation is folding over the first part, then the second. */
  lemma {:induction false} RunAppend(st: VttState, a: seq<string>, b: seq<string>)
    ensures Run(st, a + b) == Run(Run(st, a), b)
    decreases |a|
  {
    if a == [] {
      assert a + b == b;
    } else {
      assert (a + b)[1..] == a[1..] + b;
      RunAppend(Step(st, a[0]), a[1..], b);
    }
  }

  lemma RunStep(st: VttState, lines: seq<string>, i: nat)
    requires i < |lines|
    ensures Run(st, lines[i..]) == Run(Step(st, lines[i]), lines[i + 1..])
  {
    assert lines[i..][1..] == lines[i + 1..];
  }

  /** `parseVTT`. */
  method ParseVtt(content: string) returns (entries: seq<SubtitleEntry>)
    ensures entries == VttEntries(content)
  {
    var lines := VttLines(content);
    entries := ReadCues(lines);
  }

  /** The loop of `parseVTT` over the lines after the header, and the flush after it. */
  method ReadCues(lines: seq<string>) returns (entries: seq<SubtitleEntry>)
    ensures entries == Finish(Run(Init, lines))
  {
    entries := [];
    var id := 1;
    var startTime: string := [];
    var endTime: string := [];
    var text: string := [];
    var inCue := false;
    var i := 0;
    while i < |lines|
      invariant i <= |lines|
      invariant Reaches(lines, i, VttState(id, startTime, endTime, text, inCue, entries))
    {
      ghost var before := VttState(id, startTime, endTime, text, inCue, entries);
      id, startTime, endTime, text, inCue, entries := ReadLine(id, startTime, endTime, text, inCue, entries, lines[i]);
      LoopStep(lines, i, before, VttState(id, startTime, endTime, text, inCue, entries));
      i := i + 1;
    }
    assert lines[i..] == [];
    if inCue && startTime != [] && endTime != [] && text != [] {
      entries := entries + [SubtitleEntry(Int(id), startTime, endTime, Trim(text))];
    }
  }

  /** One turn of the loop of `parseVTT` advances the fold by one line. */
  lemma LoopStep(lines: seq<string>, i: nat, before: VttState, after: VttState)
    requires i < |lines| && after == Step(before, lines[i]) && Reaches(lines, i, before)
    ensures Reaches(lines, i + 1, after)
  {
    RunStep(before, lines, i);
  }

  /** The loop of `parseVTT` is in state st after its first i lines. */
  predicate Reaches(lines: seq<string>, i: nat, st: VttState)
    requires i <= |lines|
  {
    Run(Init, lines) == Run(st, lines[i..])
  }

  /** The body of the loop of `parseVTT` on one raw line: one step of the state machine. */
  method ReadLine(id: int, startTime: string, endTime: string, text: string, inCue: bool,
                  entries: seq<SubtitleEntry>, raw: string)
    returns (id': int, startTime': string, endTime': string, text': string, inCue': bool,
             entries': seq<SubtitleEntry>)
    ensures VttState(id', startTime', endTime', text', inCue', entries')
            == Step(VttState(id, startTime, endTime, text, inCue, entries), raw)
  {
    var line := Trim(raw);
    if line == [] {
      // a blank line closes the open cue
      id', startTime', endTime', text', inCue', entries' := ReadBlank(id, startTime, endTime, text, inCue, entries, raw);
    } else {
      id', startTime', endTime', text', inCue', entries' := ReadFilled(id, startTime, endTime, text, inCue, entries, raw);
    }
  }

  /** The loop body on a line that is blank once trimmed. */
  method ReadBlank(id: int, startTime: string, endTime: string, text: string, inCue: bool,
                   entries: seq<SubtitleEntry>, raw: string)
    returns (id': int, startTime': string, endTime': string, text': string, inCue': bool,
             entries': seq<SubtitleEntry>)
    requires Trim(raw) == []
    ensures VttState(id', startTime', endTime', text', inCue', entries')
            == Step(VttState(id, startTime, endTime, text, inCue, entries), raw)
  {
    ghost var before := VttState(id, startTime, endTime, text, inCue, entries);
    id', startTime', endTime', text', inCue', entries' := id, startTime, endTime, text, inCue, entries;
    if inCue && startTime != [] && endTime != [] {
      BlankStepCloses(before, raw);
      entries' := entries + [SubtitleEntry(Int(id), startTime, endTime, Trim(text))];
      text' := [];
      inCue' := false;
    } else {
      BlankStepIdle(before, raw);
    }
  }

  /** The loop body on a line that is not blank once trimmed. */
  method ReadFilled(id: int, startTime: string, endTime: string, text: string, inCue: bool,
                    entries: seq<SubtitleEntry>, raw: string)
    returns (id': int, startTime': string, endTime': string, text': string, inCue': bool,
             entries': seq<SubtitleEntry>)
    requires Trim(raw) != []
    ensures VttState(id', startTime', endTime', text', inCue', entries')
            == Step(VttState(id, startTime, endTime, text, inCue, entries), raw)
  {
    ghost var before := VttState(id, startTime, endTime, text, inCue, entries);
    id', startTime', endTime', text', inCue', entries' := id, startTime, endTime, text, inCue, entries;
    var line := Trim(raw);
    var timeMatch := FindTiming(line, '.');
    if timeMatch.Some? {
      // a timing line opens a cue
      TimingStepOpens(before, raw, timeMatch.value);
      startTime' := ReplaceFirst(timeMatch.value.0, ".", ",");
      endTime' := ReplaceFirst(timeMatch.value.1, ".", ",");
      inCue' := true;
      id' := id + 1;
    } else if inCue && !AllDigits(line) {
      TextStep(before, raw);
      text' := text + (if text != [] then "\n" else []) + line;
    } else {
      OtherStep(before, raw);
    }
  }

  lemma BlankStepCloses(st: VttState, raw: string)
    requires Trim(raw) == [] && st.inCue && st.startTime != [] && st.endTime != []
    ensures Step(st, raw)
            == st.(entries := st.entries + [SubtitleEntry(Int(st.id), st.startTime, st.endTime, Trim(st.text))],
                   text := [], inCue := false)
  {
  }

  lemma BlankStepIdle(st: VttState, raw: string)
    requires Trim(raw) == [] && !(st.inCue && st.startTime != [] && st.endTime != [])
    ensures Step(st, raw) == st
  {
  }

  lemma TimingStepOpens(st: VttState, raw: string, stamps: (string, string))
    requires Trim(raw) != [] && FindTiming(Trim(raw), '.') == Some(stamps)
    ensures Step(st, raw) == st.(startTime := ReplaceFirst(stamps.0, ".", ","),
                                endTime := ReplaceFirst(stamps.1, ".", ","), inCue := true, id := st.id + 1)
  {
  }

  lemma TextStep(st: VttState, raw: string)
    requires Trim(raw) != [] && FindTiming(Trim(raw), '.').None? && st.inCue && !AllDigits(Trim(raw))
    ensures Step(st, raw) == st.(text := st.text + (if st.text != [] then "\n" else []) + Trim(raw))
  {
  }

  lemma OtherStep(st: VttState, raw: string)
    requires Trim(raw) != [] && FindTiming(Trim(raw), '.').None? && !(st.inCue && !AllDigits(Trim(raw)))
    ensures Step(st, raw) == st
  {
  }

  // ---------------------------------------------------------------- invariants

  /** The ids of the entries are integers, strictly increasing, at least 2 and at most bound. */
  predicate IdsIncreasing(es: seq<SubtitleEntry>, bound: int) {
    (forall k :: 0 <= k < |es| ==> es[k].id.Int? && 2 <= es[k].id.value <= bound)
    && (forall k, l :: 0 <= k < l < |es| ==> es[k].id.value < es[l].id.value)
  }

  /** Entries as `parseVTT` emits them: SRT stamps and trimmed text. */
  predicate WellFormedEntry(e: SubtitleEntry) {
    IsStamp(e.startTime, ',') && IsStamp(e.endTime, ',') && Trimmed(e.text)
  }

  /** What holds of the loop variables after every line. */
  predicate Inv(st: VttState) {
    st.id >= 1
    && (st.startTime == [] || IsStamp(st.startTime, ','))
    && (st.endTime == [] || IsStamp(st.endTime, ','))
    && (st.inCue ==> st.id >= 2 && st.startTime != [] && st.endTime != [])
    && (!st.inCue ==> st.text == [])
    && IdsIncreasing(st.entries, st.id)
    && (st.inCue && st.entries != [] ==> st.entries[|st.entries| - 1].id.value < st.id)
    && (forall k :: 0 <= k < |st.entries| ==> WellFormedEntry(st.entries[k]))
  }

  /** A WebVTT stamp becomes an SRT stamp when its first `.` becomes `,`, and back. */
  lemma SwapSeparator(s: string, from: char, to: char)
    requires IsStamp(s, from) && !IsDigit(from) && from != ':'
    ensures ReplaceFirst(s, [from], [to]) == s[..8] + [to] + s[9..]
    ensures IsStamp(ReplaceFirst(s, [from], [to]), to)
  {
    assert OccursAt(s, [from], 8);
    forall k: nat | k < 8 ensures !OccursAt(s, [from], k) {
      assert s[k..k + 1][0] == s[k];
    }
    assert IndexOf(s, [from]) == Some(8);
  }

  lemma StepInv(st: VttState, raw: string)
    requires Inv(st)
    ensures Inv(Step(st, raw))
  {
    var line := Trim(raw);
    if line == [] {
      if st.inCue {
        BlankLineInv(st, raw);
      }
    } else if FindTiming(line, '.').Some? {
      TimingLineInv(st, raw);
    }
  }

  lemma BlankLineInv(st: VttState, raw: string)
    requires Inv(st) && Trim(raw) == [] && st.inCue
    ensures Inv(Step(st, raw))
  {
    var e := SubtitleEntry(Int(st.id), st.startTime, st.endTime, Trim(st.text));
    assert Step(st, raw) == st.(entries := st.entries + [e], text := [], inCue := false);
    ClosedCueInv(st, e);
  }

  /** Closing the open cue keeps the invariant. */
  lemma ClosedCueInv(st: VttState, e: SubtitleEntry)
    requires Inv(st) && st.inCue
    requires e == SubtitleEntry(Int(st.id), st.startTime, st.endTime, Trim(st.text))
    ensures Inv(st.(entries := st.entries + [e], text := [], inCue := false))
  {
    assert WellFormedEntry(e) by {
      assert IsStamp(st.startTime, ',') && IsStamp(st.endTime, ',');
      assert Trimmed(Trim(st.text));
    }
    IdsAppend(st.entries, e, st.id);
    AppendWellFormed(st.entries, e);
  }

  /** An entry whose id is above every id so far keeps the ids increasing. */
  lemma IdsAppend(es: seq<SubtitleEntry>, e: SubtitleEntry, bound: int)
    requires IdsIncreasing(es, bound) && e.id.Int? && 2 <= e.id.value <= bound
    requires es != [] ==> es[|es| - 1].id.value < e.id.value
    ensures IdsIncreasing(es + [e], bound)
  {
    var r := es + [e];
    forall k, l | 0 <= k < l < |r| ensures r[k].id.value < r[l].id.value {
      if l == |es| && k < |es| - 1 {
        assert es[k].id.value < es[|es| - 1].id.value;
      }
    }
  }

  lemma TimingLineInv(st: VttState, raw: string)
    requires Inv(st) && Trim(raw) != [] && FindTiming(Trim(raw), '.').Some?
    ensures Inv(Step(st, raw))
  {
    var stamps := FindTiming(Trim(raw), '.').value;
    TimingStepOpens(st, raw, stamps);
    SwapSeparator(stamps.0, '.', ',');
    SwapSeparator(stamps.1, '.', ',');
    OpenInv(st, ReplaceFirst(stamps.0, ".", ","), ReplaceFirst(stamps.1, ".", ","));
  }

  /** Opening a cue with two SRT stamps keeps the invariant. */
  lemma OpenInv(st: VttState, a: string, b: string)
    requires Inv(st) && IsStamp(a, ',') && IsStamp(b, ',')
    ensures Inv(st.(startTime := a, endTime := b, inCue := true, id := st.id + 1))
  {
  }

  lemma {:induction false} RunInv(st: VttState, lines: seq<string>)
    requires Inv(st)
    ensures Inv(Run(st, lines))
    decreases |lines|
  {
    if lines != [] {
      StepInv(st, lines[0]);
      RunInv(Step(st, lines[0]), lines[1..]);
    }
  }

  /** Every entry `parseVTT` returns has SRT stamps and trimmed text, and the ids are integers
      that strictly increase from at least 2. */
  lemma VttEntriesWellFormed(content: string)
    ensures var es := VttEntries(content);
            (forall k :: 0 <= k < |es| ==> WellFormedEntry(es[k]))
            && (forall k :: 0 <= k < |es| ==> es[k].id.Int? && es[k].id.value >= 2)
            && (forall k, l :: 0 <= k < l < |es| ==> es[k].id.value < es[l].id.value)
  {
    RunInv(Init, VttLines(content));
    FinishWellFormed(Run(Init, VttLines(content)));
  }

  lemma FinishWellFormed(st: VttState)
    requires Inv(st)
    ensures var es := Finish(st);
            (forall k :: 0 <= k < |es| ==> WellFormedEntry(es[k]))
            && (forall k :: 0 <= k < |es| ==> es[k].id.Int? && es[k].id.value >= 2)
            && (forall k, l :: 0 <= k < l < |es| ==> es[k].id.value < es[l].id.value)
  {
    if st.inCue && st.startTime != [] && st.endTime != [] && st.text != [] {
      OpenCueProps(st, SubtitleEntry(Int(st.id), st.startTime, st.endTime, Trim(st.text)));
    } else {
      EntriesProps(st.entries, st.id);
    }
  }

  /** The entry of the open cue, appended, keeps the entries well formed and increasing. */
  lemma OpenCueProps(st: VttState, e: SubtitleEntry)
    requires Inv(st) && st.inCue && st.startTime != [] && st.endTime != []
    requires e == SubtitleEntry(Int(st.id), st.startTime, st.endTime, Trim(st.text))
    ensures var r := st.entries + [e];
            (forall k :: 0 <= k < |r| ==> WellFormedEntry(r[k]))
            && (forall k :: 0 <= k < |r| ==> r[k].id.Int? && r[k].id.value >= 2)
            && (forall k, l :: 0 <= k < l < |r| ==> r[k].id.value < r[l].id.value)
  {
    assert WellFormedEntry(e) by {
      assert IsStamp(st.startTime, ',') && IsStamp(st.endTime, ',');
      assert Trimmed(Trim(st.text));
    }
    AppendProps(st.entries, e, st.id);
  }

  /** Appending a well-formed entry whose id is above every id so far. */
  lemma AppendProps(es: seq<SubtitleEntry>, e: SubtitleEntry, bound: int)
    requires IdsIncreasing(es, bound) && forall k :: 0 <= k < |es| ==> WellFormedEntry(es[k])
    requires WellFormedEntry(e) && e.id.Int? && 2 <= e.id.value <= bound
    requires es != [] ==> es[|es| - 1].id.value < e.id.value
    ensures var r := es + [e];
            (forall k :: 0 <= k < |r| ==> WellFormedEntry(r[k]))
            && (forall k :: 0 <= k < |r| ==> r[k].id.Int? && r[k].id.value >= 2)
            && (forall k, l :: 0 <= k < l < |r| ==> r[k].id.value < r[l].id.value)
  {
    IdsAppend(es, e, bound);
    AppendWellFormed(es, e);
    EntriesProps(es + [e], bound);
  }

  /** Well-formed entries with increasing ids, spelled out. */
  lemma EntriesProps(es: seq<SubtitleEntry>, bound: int)
    requires IdsIncreasing(es, bound) && forall k :: 0 <= k < |es| ==> WellFormedEntry(es[k])
    ensures (forall k :: 0 <= k < |es| ==> WellFormedEntry(es[k]))
            && (forall k :: 0 <= k < |es| ==> es[k].id.Int? && es[k].id.value >= 2)
            && (forall k, l :: 0 <= k < l < |es| ==> es[k].id.value < es[l].id.value)
  {
  }

  lemma AppendWellFormed(es: seq<SubtitleEntry>, e: SubtitleEntry)
    requires (forall k :: 0 <= k < |es| ==> WellFormedEntry(es[k])) && WellFormedEntry(e)
    ensures forall k :: 0 <= k < |es + [e]| ==> WellFormedEntry((es + [e])[k])
  {
    var r := es + [e];
    forall k | 0 <= k < |r| ensures WellFormedEntry(r[k]) {
      if k < |es| {
        assert r[k] == es[k];
      }
    }
  }

  /** The number of timing lines among the lines. */
  function TimingLines(lines: seq<string>): (n: nat)
    ensures n <= |lines|
  {
    if lines == [] then 0 else (if IsTimingLine(lines[0]) then 1 else 0) + TimingLines(lines[1..])
  }

  /** The id counter counts timing lines: after the lines it is one more than their number
      of timing lines, so the cue cueOpen by the k-th timing line carries id k + 1. */
  lemma {:induction false} RunId(st: VttState, lines: seq<string>)
    ensures Run(st, lines).id == st.id + TimingLines(lines)
    decreases |lines|
  {
    if lines != [] {
      RunId(Step(st, lines[0]), lines[1..]);
    }
  }

  /** A line of digits changes nothing: it is not blank, not a timing line, and not text. */
  lemma NumericLineIgnored(st: VttState, raw: string)
    requires AllDigits(Trim(raw))
    ensures Step(st, raw) == st
  {
    DigitsAreNoTiming(Trim(raw), '.');
  }

  /** Lines before the first timing line are never text: outside a cue nothing but a timing
      line changes the state. */
  lemma {:induction false} PreambleIgnored(st: VttState, lines: seq<string>)
    requires !st.inCue && forall k :: 0 <= k < |lines| ==> !IsTimingLine(lines[k])
    ensures Run(st, lines) == st
    decreases |lines|
  {
    if lines != [] {
      assert !IsTimingLine(lines[0]);
      assert Step(st, lines[0]) == st;
      PreambleIgnored(st, lines[1..]);
    }
  }

  // ---------------------------------------------------------------- export

  /** The timing line `exportToVTT` writes: in each stamp only the first `,` becomes `.`. */
  function VttTiming(e: SubtitleEntry): string {
    ReplaceFirst(e.startTime, ",", ".") + Arrow + ReplaceFirst(e.endTime, ",", ".")
  }

  /** One cue without its trailing line feed. */
  function VttCue(number: string, e: SubtitleEntry): string {
    number + "\n" + VttTiming(e) + "\n" + e.text
  }

  /** The blocks `exportToVTT` maps the entries to, numbered from first. */
  function VttBlocks(es: seq<SubtitleEntry>, first: nat): (r: seq<string>)
    ensures |r| == |es|
  {
    if es == [] then [] else [VttCue(NatToString(first), es[0]) + "\n"] + VttBlocks(es[1..], first + 1)
  }

  /** `exportToVTT`: the header line and a blank line, then the cues numbered from 1, each
      ending in a line feed, joined with a line feed. */
  function ExportToVtt(es: seq<SubtitleEntry>): string {
    "WEBVTT\n\n" + Join(VttBlocks(es, 1), "\n")
  }

  // ---------------------------------------------------------------- round trip

  /** A text line that `parseVTT` keeps as it is: non-empty, trimmed, not a number and not a
      timing line. */
  predicate CueTextLine(line: string) {
    line != [] && Trimmed(line) && !AllDigits(line) && !IsTimingLine(line)
  }

  /** A cue text that `parseVTT` reads back unchanged: no carriage return, and every line of it
      a cue text line (so it is non-empty and has no empty line). */
  predicate VttText(t: string) {
    (forall k :: 0 <= k < |t| ==> t[k] != '\r')
    && forall i :: 0 <= i < |Split(t, LineBreak)| ==> CueTextLine(Split(t, LineBreak)[i])
  }

  /** An entry that `exportToVTT` writes so that `parseVTT` reads it back. */
  predicate VttExportable(e: SubtitleEntry) {
    IsStamp(e.startTime, ',') && IsStamp(e.endTime, ',') && VttText(e.text)
  }

  /** The lines of the exported cues, each cue followed by the empty line after it. */
  function ExportLines(es: seq<SubtitleEntry>, first: nat): seq<string> {
    if es == [] then [] else CueLineList(first, es[0]) + ExportLines(es[1..], first + 1)
  }

  /** The lines of one exported cue numbered n, followed by the empty line after it. */
  function CueLineList(n: nat, e: SubtitleEntry): seq<string> {
    [NatToString(n), VttTiming(e)] + Split(e.text, LineBreak) + [[]]
  }

  /** The number line of a cue changes nothing. */
  lemma NumberLineIgnored(st: VttState, n: nat)
    ensures Step(st, NatToString(n)) == st
  {
    var number := NatToString(n);
    assert !IsSpace(number[0]) && !IsSpace(number[|number| - 1]);
    assert Trim(number) == number;
    NumericLineIgnored(st, number);
  }

  /** The timing line of a cue opens the cue with the entry's own SRT stamps. */
  lemma TimingLineOpens(st: VttState, e: SubtitleEntry)
    requires IsStamp(e.startTime, ',') && IsStamp(e.endTime, ',')
    ensures Step(st, VttTiming(e))
            == st.(startTime := e.startTime, endTime := e.endTime, inCue := true, id := st.id + 1)
  {
    var vs := ReplaceFirst(e.startTime, ",", ".");
    var ve := ReplaceFirst(e.endTime, ",", ".");
    SwapBack(e.startTime);
    SwapBack(e.endTime);
    TimingStep(st, VttTiming(e), vs, ve, e.startTime, e.endTime);
  }

  /** A line of two WebVTT stamps opens a cue with its stamps, `.` turned back to `,`. */
  lemma TimingStep(st: VttState, raw: string, vs: string, ve: string, s: string, t: string)
    requires raw == vs + Arrow + ve && IsStamp(vs, '.') && IsStamp(ve, '.')
    requires ReplaceFirst(vs, ".", ",") == s && ReplaceFirst(ve, ".", ",") == t
    ensures Step(st, raw) == st.(startTime := s, endTime := t, inCue := true, id := st.id + 1)
  {
    TimingLineFound(vs, ve);
  }

  /** A timing line of two WebVTT stamps is trimmed and found whole. */
  lemma TimingLineFound(vs: string, ve: string)
    requires IsStamp(vs, '.') && IsStamp(ve, '.')
    ensures Trim(vs + Arrow + ve) == vs + Arrow + ve
    ensures FindTiming(vs + Arrow + ve, '.') == Some((vs, ve))
  {
    TimingTrimmed(vs, ve, '.');
    TimingOfStamps(vs, ve, '.');
  }

  /** An SRT stamp written as a WebVTT stamp reads back as itself. */
  lemma SwapBack(s: string)
    requires IsStamp(s, ',')
    ensures IsStamp(ReplaceFirst(s, ",", "."), '.')
    ensures ReplaceFirst(ReplaceFirst(s, ",", "."), ".", ",") == s
  {
    SwapSeparator(s, ',', '.');
    var v := ReplaceFirst(s, ",", ".");
    SwapSeparator(v, '.', ',');
    assert v[..8] + "," + v[9..] == s;
  }

  /** The text lines of a cue are appended one by one. */
  lemma {:induction false} TextLinesAppended(st: VttState, lines: seq<string>)
    requires st.inCue && forall i :: 0 <= i < |lines| ==> CueTextLine(lines[i])
    ensures Run(st, lines) == st.(text := Appended(st.text, lines))
    decreases |lines|
  {
    if lines != [] {
      var line := lines[0];
      assert CueTextLine(line);
      assert Trim(line) == line;
      assert Step(st, line) == st.(text := st.text + (if st.text != [] then "\n" else []) + line);
      TextLinesAppended(Step(st, line), lines[1..]);
    }
  }

  /** The text after the lines are appended to t as `parseVTT` does. */
  function Appended(t: string, lines: seq<string>): string
    decreases |lines|
  {
    if lines == [] then t else Appended(t + (if t != [] then "\n" else []) + lines[0], lines[1..])
  }

  /** Appending non-empty lines to a non-empty text puts a line feed before each. */
  lemma {:induction false} AppendedJoin(t: string, lines: seq<string>)
    requires t != [] && lines != []
    ensures Appended(t, lines) == t + "\n" + Join(lines, "\n")
    decreases |lines|
  {
    if |lines| > 1 {
      AppendedJoin(t + "\n" + lines[0], lines[1..]);
      assert Join(lines, "\n") == lines[0] + "\n" + Join(lines[1..], "\n");
    }
  }

  /** Appending the lines of a text to the empty text gives the text back. */
  lemma AppendedText(t: string)
    requires VttText(t)
    ensures Appended([], Split(t, LineBreak)) == t
    ensures Trimmed(t) && Trim(t) == t
  {
    AppendedRebuilds(t);
    TextTrimmed(t);
  }

  lemma AppendedRebuilds(t: string)
    requires VttText(t)
    ensures Appended([], Split(t, LineBreak)) == t
  {
    var lines := Split(t, LineBreak);
    assert CueTextLine(lines[0]);
    JoinSplitLines(t, []);
    assert [] + t == t;
    AppendedLines(lines);
  }

  /** Appending lines to the empty text joins them with line feeds when the first is non-empty. */
  lemma AppendedLines(lines: seq<string>)
    requires |lines| >= 1 && lines[0] != []
    ensures Appended([], lines) == Join(lines, "\n")
  {
    assert Appended([], lines) == Appended(lines[0], lines[1..]) by {
      assert [] + [] + lines[0] == lines[0];
    }
    if |lines| > 1 {
      AppendedJoin(lines[0], lines[1..]);
      assert Join(lines, "\n") == lines[0] + "\n" + Join(lines[1..], "\n");
    }
  }

  lemma TextTrimmed(t: string)
    requires VttText(t)
    ensures Trimmed(t) && Trim(t) == t
  {
    var lines := Split(t, LineBreak);
    JoinSplitLines(t, []);
    assert [] + t == t;
    forall i | 0 <= i < |lines| ensures lines[i] != [] {
      assert CueTextLine(lines[i]);
    }
    JoinEnds(lines, "\n");
    assert CueTextLine(lines[|lines| - 1]);
  }

  /** One exported cue and the empty line after it emit the entry with the next id. */
  lemma CueRead(st: VttState, n: nat, e: SubtitleEntry)
    requires !st.inCue && st.text == [] && VttExportable(e)
    ensures Run(st, CueLineList(n, e))
            == st.(id := st.id + 1, startTime := e.startTime, endTime := e.endTime,
                   entries := st.entries + [e.(id := Int(st.id + 1))])
  {
    var head := [NatToString(n), VttTiming(e)];
    var body := Split(e.text, LineBreak) + [[]];
    var cueOpen := st.(startTime := e.startTime, endTime := e.endTime, inCue := true, id := st.id + 1);
    CueHeadRead(st, n, e);
    assert CueLineList(n, e) == head + body;
    RunAppend(st, head, body);
    CueBodyRead(cueOpen, e.text);
    assert SubtitleEntry(Int(cueOpen.id), cueOpen.startTime, cueOpen.endTime, e.text)
           == e.(id := Int(st.id + 1));
  }

  /** The text lines of an open cue and the empty line after them emit it with that text. */
  lemma CueBodyRead(st: VttState, t: string)
    requires st.inCue && st.text == [] && st.startTime != [] && st.endTime != [] && VttText(t)
    ensures Run(st, Split(t, LineBreak) + [[]])
            == st.(entries := st.entries + [SubtitleEntry(Int(st.id), st.startTime, st.endTime, t)],
                   inCue := false)
  {
    var lines := Split(t, LineBreak);
    TextLinesAppended(st, lines);
    AppendedText(t);
    var filled := st.(text := t);
    assert Run(st, lines) == filled;
    BlankLineCloses(filled);
    RunAppend(st, lines, [[]]);
  }

  /** The number line and the timing line of a cue open it. */
  lemma CueHeadRead(st: VttState, n: nat, e: SubtitleEntry)
    requires IsStamp(e.startTime, ',') && IsStamp(e.endTime, ',')
    ensures Run(st, [NatToString(n), VttTiming(e)])
            == st.(startTime := e.startTime, endTime := e.endTime, inCue := true, id := st.id + 1)
  {
    NumberLineIgnored(st, n);
    TimingLineOpens(st, e);
    RunTwo(st, NatToString(n), VttTiming(e));
  }

  lemma RunTwo(st: VttState, a: string, b: string)
    ensures Run(st, [a, b]) == Step(Step(st, a), b)
  {
    var two := [a, b];
    assert two[1..] == [b];
    var one := [b];
    assert one[1..] == [];
    var s1 := Step(st, a);
    assert Run(st, two) == Run(s1, one);
    assert Run(s1, one) == Run(Step(s1, b), []);
  }

  /** The empty line after a cue emits it with its text as it is, when that text is trimmed. */
  lemma BlankLineCloses(st: VttState)
    requires st.inCue && st.startTime != [] && st.endTime != [] && Trim(st.text) == st.text
    ensures Run(st, [[]])
            == st.(entries := st.entries + [SubtitleEntry(Int(st.id), st.startTime, st.endTime, st.text)],
                   text := [], inCue := false)
  {
    assert Trim([]) == [];
    var one: seq<string> := [[]];
    assert one[1..] == [];
  }

  lemma RenumberedCons(before: seq<SubtitleEntry>, es: seq<SubtitleEntry>, first: int)
    requires es != []
    ensures before + Renumbered(es, first)
            == (before + [es[0].(id := Int(first))]) + Renumbered(es[1..], first + 1)
  {
    assert Renumbered(es, first) == [es[0].(id := Int(first))] + Renumbered(es[1..], first + 1);
  }

  /** The exported cues emit the entries with the ids that follow st.id. */
  lemma {:induction false} ExportLinesRead(st: VttState, es: seq<SubtitleEntry>, first: nat)
    requires !st.inCue && st.text == [] && forall k :: 0 <= k < |es| ==> VttExportable(es[k])
    ensures var r := Run(st, ExportLines(es, first));
            !r.inCue && r.text == [] && r.entries == st.entries + Renumbered(es, st.id + 1)
    decreases |es|
  {
    if es == [] {
      assert st.entries + [] == st.entries;
    } else {
      var cue := CueLineList(first, es[0]);
      var later := ExportLines(es[1..], first + 1);
      var next := st.(id := st.id + 1, startTime := es[0].startTime, endTime := es[0].endTime,
                      entries := st.entries + [es[0].(id := Int(st.id + 1))]);
      assert Run(st, ExportLines(es, first)) == Run(next, later) by {
        assert ExportLines(es, first) == cue + later;
        RunAppend(st, cue, later);
        CueRead(st, first, es[0]);
      }
      var rest := es[1..];
      assert forall k :: 0 <= k < |rest| ==> VttExportable(rest[k]) by {
        forall k | 0 <= k < |rest| ensures VttExportable(rest[k]) {
          assert rest[k] == es[k + 1];
        }
      }
      ExportLinesRead(next, rest, first + 1);
      RenumberedCons(st.entries, es, st.id + 1);
    }
  }

  /** A line feed at the start gives an empty first line. */
  lemma SplitLeadingBreak(rest: string)
    ensures Split("\n" + rest, LineBreak) == [[]] + Split(rest, LineBreak)
  {
    SplitLinesAppend([], rest, []);
    assert [] + "\n" + rest == "\n" + rest;
  }

  /** Well-formed stamps and no carriage return in the text. */
  predicate LineSafe(e: SubtitleEntry) {
    IsStamp(e.startTime, ',') && IsStamp(e.endTime, ',') && forall k :: 0 <= k < |e.text| ==> e.text[k] != '\r'
  }

  /** An exported cue splits into its number line, its timing line and its text lines. */
  lemma CueSplit(n: nat, e: SubtitleEntry, rest: string)
    requires LineSafe(e)
    ensures Split(VttCue(NatToString(n), e) + "\n" + rest, LineBreak)
            == [NatToString(n), VttTiming(e)] + Split(e.text, LineBreak) + Split(rest, LineBreak)
  {
    SwapBack(e.startTime);
    SwapBack(e.endTime);
    StampsSingleLine(ReplaceFirst(e.startTime, ",", "."), ReplaceFirst(e.endTime, ",", "."), '.');
    DigitsSingleLine(NatToString(n));
    ThreeLinesSplit(NatToString(n), VttTiming(e), e.text, rest);
  }

  lemma ThreeLinesSplit(a: string, b: string, t: string, rest: string)
    requires SingleLine(a) && SingleLine(b) && forall k :: 0 <= k < |t| ==> t[k] != '\r'
    ensures Split(a + "\n" + b + "\n" + t + "\n" + rest, LineBreak)
            == [a, b] + Split(t, LineBreak) + Split(rest, LineBreak)
  {
    var tail := t + "\n" + rest;
    LinesAssoc(a, b, t, rest);
    assert Split(a + "\n" + (b + "\n" + tail), LineBreak) == [a] + Split(b + "\n" + tail, LineBreak) by {
      LineBeforeRest(a, b + "\n" + tail);
    }
    assert Split(b + "\n" + tail, LineBreak) == [b] + Split(tail, LineBreak) by {
      LineBeforeRest(b, tail);
    }
    SplitLinesAppend(t, rest, []);
    ConcatAssoc3([a], [b], Split(t, LineBreak), Split(rest, LineBreak));
  }

  lemma LinesAssoc(a: string, b: string, t: string, rest: string)
    ensures a + "\n" + b + "\n" + t + "\n" + rest == a + "\n" + (b + "\n" + (t + "\n" + rest))
  {
  }

  lemma ConcatAssoc3(a: seq<string>, b: seq<string>, c: seq<string>, d: seq<string>)
    ensures a + (b + (c + d)) == a + b + c + d
  {
  }

  /** The lines of the exported cues are the lines `parseVTT` iterates over. */
  lemma {:induction false} ExportSplit(es: seq<SubtitleEntry>, first: nat)
    requires es != [] && forall k :: 0 <= k < |es| ==> LineSafe(es[k])
    ensures Split(Join(VttBlocks(es, first), "\n"), LineBreak) == ExportLines(es, first)
    decreases |es|
  {
    var head := [NatToString(first), VttTiming(es[0])] + Split(es[0].text, LineBreak);
    assert CueLineList(first, es[0]) == head + [[]];
    if |es| == 1 {
      BlocksJoinLast(es, first);
      CueSplit(first, es[0], []);
      assert ExportLines(es, first) == head + [[]] + [];
    } else {
      ExportSplit(es[1..], first + 1);
      ExportSplitStep(es, first);
    }
  }

  lemma ExportSplitStep(es: seq<SubtitleEntry>, first: nat)
    requires |es| >= 2 && LineSafe(es[0])
    requires Split(Join(VttBlocks(es[1..], first + 1), "\n"), LineBreak) == ExportLines(es[1..], first + 1)
    ensures Split(Join(VttBlocks(es, first), "\n"), LineBreak) == ExportLines(es, first)
  {
    var rest := Join(VttBlocks(es[1..], first + 1), "\n");
    var head := [NatToString(first), VttTiming(es[0])] + Split(es[0].text, LineBreak);
    HeadBlockSplit(es, first);
    SplitLeadingBreak(rest);
    ExportLinesCons(es, first);
    ConcatAssoc(head, [[]], ExportLines(es[1..], first + 1));
  }

  lemma ConcatAssoc(a: seq<string>, b: seq<string>, c: seq<string>)
    ensures a + (b + c) == a + b + c
  {
  }

  lemma ExportLinesCons(es: seq<SubtitleEntry>, first: nat)
    requires es != []
    ensures ExportLines(es, first)
            == [NatToString(first), VttTiming(es[0])] + Split(es[0].text, LineBreak) + [[]]
               + ExportLines(es[1..], first + 1)
  {
  }

  lemma HeadBlockSplit(es: seq<SubtitleEntry>, first: nat)
    requires |es| >= 2 && LineSafe(es[0])
    ensures Split(Join(VttBlocks(es, first), "\n"), LineBreak)
            == [NatToString(first), VttTiming(es[0])] + Split(es[0].text, LineBreak)
               + Split("\n" + Join(VttBlocks(es[1..], first + 1), "\n"), LineBreak)
  {
    BlocksJoinCons(es, first);
    CueSplit(first, es[0], "\n" + Join(VttBlocks(es[1..], first + 1), "\n"));
  }

  lemma BlocksJoinLast(es: seq<SubtitleEntry>, first: nat)
    requires |es| == 1
    ensures Join(VttBlocks(es, first), "\n") == VttCue(NatToString(first), es[0]) + "\n" + []
  {
    assert VttBlocks(es, first) == [VttCue(NatToString(first), es[0]) + "\n"];
  }

  lemma BlocksJoinCons(es: seq<SubtitleEntry>, first: nat)
    requires |es| >= 2
    ensures Join(VttBlocks(es, first), "\n")
            == VttCue(NatToString(first), es[0]) + "\n" + ("\n" + Join(VttBlocks(es[1..], first + 1), "\n"))
  {
    var blocks := VttBlocks(es, first);
    assert blocks[1..] == VttBlocks(es[1..], first + 1);
  }

  /** The header `exportToVTT` writes is removed whole. */
  lemma HeaderStripped(body: string)
    requires body == [] || (body[0] != '\n' && body[0] != '\r')
    ensures StripHeader("WEBVTT\n\n" + body) == body
  {
    var s := "WEBVTT\n\n" + body;
    assert StartsWithWebvtt(s);
    assert TerminatorFrom(s, 6) == 6;
    assert s[6..] == "\n" + ("\n" + body);
    assert ("\n" + ("\n" + body))[1..] == "\n" + body;
    assert ("\n" + body)[1..] == body;
    assert NewlineLength(body) == 0;
    assert NewlineRunLength(body) == 0;
    assert NewlineLength("\n" + body) == 1;
    assert NewlineRunLength("\n" + body) == 1;
    assert NewlineLength(s[6..]) == 1;
    assert NewlineRunLength(s[6..]) == 2;
    assert HeaderLength(s) == 8;
  }

  /** `parseVTT(exportToVTT(es))` gives back the entries, numbered from 2, when every stamp is
      well formed and every text is made of cue text lines. */
  lemma ExportThenParseVtt(es: seq<SubtitleEntry>)
    requires forall k :: 0 <= k < |es| ==> VttExportable(es[k])
    ensures VttEntries(ExportToVtt(es)) == Renumbered(es, 2)
  {
    if es == [] {
      ExportNothingVtt();
    } else {
      ExportableLineSafe(es);
      ExportedLines(es);
      ExportedRead(es);
    }
  }

  lemma ExportableLineSafe(es: seq<SubtitleEntry>)
    requires forall k :: 0 <= k < |es| ==> VttExportable(es[k])
    ensures forall k :: 0 <= k < |es| ==> LineSafe(es[k])
  {
    forall k | 0 <= k < |es| ensures LineSafe(es[k]) {
      assert VttExportable(es[k]);
    }
  }

  lemma ExportedRead(es: seq<SubtitleEntry>)
    requires forall k :: 0 <= k < |es| ==> VttExportable(es[k])
    ensures Finish(Run(Init, ExportLines(es, 1))) == Renumbered(es, 2)
  {
    ExportLinesRead(Init, es, 1);
    assert [] + Renumbered(es, 2) == Renumbered(es, 2);
  }

  /** Exporting no entries and parsing the result gives no entries. */
  lemma ExportNothingVtt()
    ensures VttEntries(ExportToVtt([])) == []
  {
    HeaderStripped([]);
    assert ExportToVtt([]) == "WEBVTT\n\n" + [];
    var one: seq<string> := [[]];
    assert one[1..] == [];
    assert Trim([]) == [];
    assert Run(Init, one) == Init;
  }

  /** The lines `parseVTT` reads from the export are the exported cue lines. */
  lemma ExportedLines(es: seq<SubtitleEntry>)
    requires es != [] && forall k :: 0 <= k < |es| ==> LineSafe(es[k])
    ensures VttLines(ExportToVtt(es)) == ExportLines(es, 1)
  {
    var body := Join(VttBlocks(es, 1), "\n");
    BodyStartsWithNumber(es);
    HeaderStripped(body);
    ExportSplit(es, 1);
  }

  lemma BodyStartsWithNumber(es: seq<SubtitleEntry>)
    requires es != []
    ensures Join(VttBlocks(es, 1), "\n") != [] && Join(VttBlocks(es, 1), "\n")[0] == '1'
  {
    var blocks := VttBlocks(es, 1);
    assert NatToString(1) == "1";
    assert blocks[0] == VttCue("1", es[0]) + "\n";
    assert blocks[0][0] == '1';
    if |blocks| > 1 {
      assert Join(blocks, "\n") == blocks[0] + "\n" + Join(blocks[1..], "\n");
    }
  }
}
