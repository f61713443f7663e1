# subtitle-trans: a verified model of the subtitle pipeline

subtitle-trans is a web tool that translates and repairs subtitle files with a language
model. This project models the core of it: the subtitle text pipeline. The rest of the tool
is user interface and network plumbing. The model covers:

- **Parsers.** SubRip (SRT), WebVTT and Advanced SubStation Alpha (ASS), plus the detector
  that picks one of them (`src/lib/subtitle/parser.ts`).
- **Writers.** The SRT and WebVTT writers (`exportToSRT`, `exportToVTT`).
- **The second SRT parser and writer** in `src/utils/subtitleUtils.ts`.
- **The `||||` transport.** It flattens the cue texts into one string for the model and
  applies the reply back onto the original timings.
- **The `[MODIFIED]` marker reader and `compareSubtitles`.**
- **`formatSubtitleForDisplay`.**
- **`highlightDifferences`,** a greedy two-cursor word diff.

The model follows the code as written, including where the code does something other than its
comments or names suggest.

Modules, one per file:

| module | file | models |
|---|---|---|
| `JsString` | `jsstring.dfy` | the ECMAScript string and number operations the code calls: `trim`, `split` on a literal and on the three regular expressions used (`/\r?\n/`, `/\r?\n\r?\n/`, `/(\s+)/`), `join`, `includes`, `replace` (first occurrence and global), `padStart`, ASCII `toLowerCase`, `parseInt` with and without a radix, and `${n}` for integers and NaN |
| `Entries` | `entry.dfy` | `SubtitleEntry` and the renumbering and trimming of entry lists |
| `Timecode` | `timecode.dfy` | the timestamp regular expressions as predicates over characters, the leftmost-match search, and `convertASSTime` |
| `SrtFormat` | `srt.dfy` | `parseSRT` and `exportToSRT` of `parser.ts` |
| `VttFormat` | `vtt.dfy` | `parseVTT` as an explicit state machine, and `exportToVTT` |
| `AssFormat` | `ass.dfy` | `parseASS`, `splitASSLine`, and the override-block and `\N` cleaning |
| `SubtitleParser` | `parser.dfy` | `parseSubtitle` |
| `SubtitleUtils` | `utils.dfy` | the second `parseSRT`, `formatToSRT`, `entriesToText`, `applyTextToEntries`, `parseModifiedSubtitles`, `compareSubtitles`, `formatSubtitleForDisplay` |
| `Highlight` | `highlight.dfy` | `highlightDifferences` |

How the source's loops are modelled:

- **The loop functions are methods.** `parseSRT` (both copies), `parseVTT`, `parseASS`,
  `splitASSLine` and `highlightDifferences` loop, so each is a `method` with a `while` loop.
  Each method is proved equal to a recursive specification function: `SrtEntries`,
  `UtilSrtEntries`, `VttEntries`, `AssEntries`, `LineFields` or `Highlighted`.
- **Long loop bodies are methods of their own.** `ReadBlock`, `ReadUtilBlock` and `ReadLine`
  each compute one turn of their loop and are proved equal to one step of the specification.
  The two `parseSRT` loops over the blocks are `ReadBlocks` and `ReadUtilBlocks`; `ParseSrt` and
  `ParseSrtUtil` cut the trimmed content into blocks and hand them on.
- **Properties are stated on those functions.** The properties of each parser are lemmas
  about its specification function.
- **The VTT and ASS loops are explicit state machines.** Their loop variables form a state
  record (`VttState`, `AssState`). A `Step` function models one iteration, and a fold
  (`Run`, `RunAss`) models the loop.
- **Numbers.** A JavaScript number as this code produces it is modelled as
  `JsInt = Int(int) | NaN`.

## Where the code differs from its description

The model follows the code in each of these cases.

- **SRT block split.** Both SRT parsers split the trimmed content on exactly one blank line
  (`/\r?\n\r?\n/`), not on "one or more blank lines". A cue after two blank lines becomes a
  block that begins with a line feed, and that block yields no entry
  (`SrtFormat.DoubleBlankLineDropsCue`).
- **VTT ids.** `parseVTT` starts its id counter at 1 and increments it on every timing line
  before the cue is emitted. The cues therefore carry ids 2, 3, …, not 1, 2, …
  (`VttFormat.RunId`, `VttFormat.ExportThenParseVtt`).
- **Last VTT cue.** At the end of the input, an open cue is emitted only when its text is
  non-empty (`VttFormat.Finish`). A blank line, by contrast, emits an open cue whatever its
  text.
- **`convertASSTime` destructuring.** The line `const [hours, minutes, seconds, centiseconds] = match`
  binds the whole match to `hours`. `0:00:01.50` therefore becomes `0:00:01.50:0:00,010`,
  not `00:00:01,500`. No matching input yields an SRT stamp
  (`Timecode.ConvertAssTime`, `Timecode.ConvertAssTimeExample`).
- **ASS text field.** The text of a `Dialogue:` line is only the field at the `Text` column.
  An unbraced comma in the text cuts it there (`AssFormat.CommaCuts`).
- **VTT writer.** `exportToVTT` turns only the first `,` of each stamp into `.`, since
  `String.prototype.replace` with a string pattern replaces once. It numbers the cues from 1
  and ignores `entry.id`, and so does `exportToSRT`.
- **`formatToSRT` ids.** `formatToSRT` writes `entry.id` as it is, NaN and negative ids
  included, and the second `parseSRT` reads every one of them back
  (`SubtitleUtils.FormatThenParse`).
- **Radix.** The two SRT parsers differ in the radix they pass to `parseInt`: the second
  passes none, so it reads a `0x` index line as hexadecimal (`SubtitleUtils.HexIndexLine`).
- **`compareSubtitles`** pairs nothing and truncates nothing (`SubtitleUtils.CompareUnpaired`).
- **Format detection.** `WEBVTT` or `[Script Info]` anywhere in the content decides the
  format, including inside a cue's text (`SubtitleParser.MarkerInTextWins`). The `unknown`
  format is declared but never returned (`SubtitleParser.Parsed`).

## Model

| member | source | states |
|---|---|---|
| JsString.Trim | src/lib/subtitle/parser.ts:54 | the result has no white space at either end, a string already without it is returned unchanged, and it is empty exactly when the input is all white space; `JsString.TrimCutsEnds` states that only white space is cut, and only from the ends |
| JsString.TrimCutsEnds | src/lib/subtitle/parser.ts:54 | the result of `trim` is the window of the input that starts right after its leading white space, and everything after that window is white space: `trim` removes only white space and only from the two ends |
| JsString.TrimAll | src/lib/subtitle/parser.ts:114 | `map(f => f.trim())`, here and at src/utils/subtitleUtils.ts:101: one string per input, in order, each trimmed |
| JsString.ParseIntToString | src/utils/subtitleUtils.ts:20 | `parseInt` reads back every integer id that `${id}` writes, and NaN as NaN, with or without a radix |
| JsString.SplitJoinLiteral | src/utils/subtitleUtils.ts:49-57 | splitting a join on its separator gives the parts back when no part contains the separator's first character |
| JsString.ConcatSplitSpaces | src/utils/subtitleUtils.ts:126-127 | `split(/(\s+)/)` loses nothing: its pieces concatenate to the input |
| JsString.ReplaceAllBack | src/utils/subtitleUtils.ts:116 | on text without `<`, writing each `<br>` back as a line feed undoes the line-feed replacement |
| Entries.Renumbered | src/lib/subtitle/parser.ts:225-231 | entry k keeps its stamps and text and takes id first + k |
| Entries.TrimmedTexts | src/utils/subtitleUtils.ts:70-73 | entry k keeps its id and stamps and takes its text trimmed |
| Timecode.FindTiming | src/lib/subtitle/parser.ts:25 | the timing search fails exactly when no position holds `dd:dd:dd,ddd --> dd:dd:dd,ddd`; otherwise it captures the two stamps of the leftmost position where the pattern matches, both well formed |
| Timecode.TimingOfStamps | src/lib/subtitle/parser.ts:25 | a timing line written from two stamps is found, with those two stamps captured |
| Timecode.DigitsAreNoTiming | src/lib/subtitle/parser.ts:67-77 | a line of digits holds no timing |
| Timecode.ConvertAssTime | src/lib/subtitle/parser.ts:180-194 | input without an ASS time is returned unchanged; input with one never comes out as an SRT stamp |
| Timecode.Rewritten | src/lib/subtitle/parser.ts:186-190 | the output of the shifted destructuring is at least 19 characters long and not an SRT stamp |
| Timecode.ConvertAssTimeExample | src/lib/subtitle/parser.ts:183-190 | `0:00:01.50` becomes `0:00:01.50:0:00,010` |
| SrtFormat.BlockEntryCases | src/lib/subtitle/parser.ts:21-33 | a block yields an entry iff it has three or more lines and its second line holds a timing; the entry has the leftmost timing's two stamps, the decimal parse of the trimmed first line as id, and lines 3.. joined with line feeds as text |
| SrtFormat.BlockEntry | src/lib/subtitle/parser.ts:21-33 | the entry of one block; its cases and contents are stated by `SrtFormat.BlockEntryCases`, and that it reads a written cue back by `SrtFormat.CueEntry` |
| SrtFormat.ReadBlock | src/lib/subtitle/parser.ts:21-33 | the body of the loop on one block returns the entries so far with exactly the entry the block yields pushed, or unchanged when it yields none |
| SrtFormat.ReadBlocks | src/lib/subtitle/parser.ts:20-36 | the loop over the blocks returns exactly the entries of the blocks, in block order |
| SrtFormat.BlockEntries | src/lib/subtitle/parser.ts:20-34 | there are never more entries than blocks |
| SrtFormat.BlockEntriesAppend | src/lib/subtitle/parser.ts:20-34 | blocks are read independently and in order: the entries of two runs of blocks are the entries of the first followed by those of the second |
| SrtFormat.SrtEntries | src/lib/subtitle/parser.ts:16-37 | what `parseSRT` returns; `SrtFormat.ParseSrt` is proved equal to it, and `SrtFormat.ExportThenParse` reads the writer's output back through it |
| SrtFormat.ParseSrt | src/lib/subtitle/parser.ts:16-37 | returns exactly the entries of the blocks of the trimmed content, in block order |
| SrtFormat.ExportToSrt | src/lib/subtitle/parser.ts:225-231 | the cues joined by line feeds; its blocks are stated by `SrtFormat.ExportBlocks`, its inverse by `SrtFormat.ExportThenParse` |
| SrtFormat.ExportBlocks | src/lib/subtitle/parser.ts:225-231 | block k is the cue numbered k + 1, whatever the entry's id, followed by a line feed |
| SrtFormat.CueEntry | src/lib/subtitle/parser.ts:21-33 | the cue written for an entry under number i reads back as that entry with id i |
| SrtFormat.NumberReadsBack | src/lib/subtitle/parser.ts:24 | a written cue number parses back to itself |
| SrtFormat.SplitJoinBlocks | src/lib/subtitle/parser.ts:18 | splitting cues joined by one blank line on `\r?\n\r?\n` gives the cues back when none holds an empty line |
| SrtFormat.ExportThenParse | src/lib/subtitle/parser.ts:225-231 | `parseSRT(exportToSRT(es))` is es renumbered from 1 when the stamps are well formed, each text is non-empty with no carriage return, no empty line and no line feed at either end, and the last text ends in a non-space |
| SrtFormat.ExportNothing | src/lib/subtitle/parser.ts:225-231 | the export of no entries reads back as no entries |
| SrtFormat.DoubleBlankLineDropsCue | src/lib/subtitle/parser.ts:18 | of two cues separated by two blank lines only the first is read |
| SrtFormat.ShiftedCueIsNoEntry | src/lib/subtitle/parser.ts:21-27 | a cue preceded by an extra line feed yields no entry |
| VttFormat.HeaderLength | src/lib/subtitle/parser.ts:45 | a header is stripped only when the content starts with `WEBVTT` in any case |
| VttFormat.HeaderStripped | src/lib/subtitle/parser.ts:45 | `WEBVTT` followed by two line feeds is removed in full when the body does not start with a line break |
| VttFormat.Step | src/lib/subtitle/parser.ts:54-80 | one turn of the loop; its cases are stated by `VttFormat.BlankLineCloses`, `VttFormat.TimingLineOpens`, `VttFormat.TextLinesAppended` and `VttFormat.NumericLineIgnored`, and the invariant it keeps by `VttFormat.StepInv` |
| VttFormat.Finish | src/lib/subtitle/parser.ts:83-85 | the end-of-input flush; `VttFormat.FinishWellFormed` states what it keeps |
| VttFormat.VttEntries | src/lib/subtitle/parser.ts:42-88 | what `parseVTT` returns; `VttFormat.ParseVtt` is proved equal to it, `VttFormat.VttEntriesWellFormed` states its entries' shape and `VttFormat.ExportThenParseVtt` its round trip |
| VttFormat.ParseVtt | src/lib/subtitle/parser.ts:42-88 | the loop returns the entries of the state machine run over the lines of the content after the header, flushed at the end |
| VttFormat.ReadCues | src/lib/subtitle/parser.ts:47-87 | the loop and the end-of-input flush return the flushed result of the state machine run over all the lines from the initial state |
| VttFormat.ReadLine | src/lib/subtitle/parser.ts:54-80 | one turn of the loop on one raw line is one step of the state machine |
| VttFormat.ReadBlank | src/lib/subtitle/parser.ts:57-64 | on a line blank after trimming, the turn is the state machine's step: an open cue with both stamps is emitted and closed, otherwise nothing changes |
| VttFormat.ReadFilled | src/lib/subtitle/parser.ts:67-80 | on a non-blank line, the turn is the state machine's step: a timing line opens a cue, a non-numeric line inside a cue is appended, anything else is skipped |
| VttFormat.RunAppend | src/lib/subtitle/parser.ts:53-80 | running over two runs of lines is running over the first and then the second |
| VttFormat.StepInv | src/lib/subtitle/parser.ts:53-80 | every line keeps the invariant: well-formed SRT stamps, an open cue has stamps, idle means no pending text, and emitted ids are at least 2 and strictly increasing |
| VttFormat.RunInv | src/lib/subtitle/parser.ts:53-80 | the invariant holds after any run of lines |
| VttFormat.FinishWellFormed | src/lib/subtitle/parser.ts:83-85 | the end-of-input flush keeps ids increasing and entries well formed |
| VttFormat.VttEntriesWellFormed | src/lib/subtitle/parser.ts:42-88 | every entry has SRT stamps and trimmed text, and ids are at least 2 and strictly increasing |
| VttFormat.RunId | src/lib/subtitle/parser.ts:72 | after any run of lines the counter has grown by the number of timing lines in it |
| VttFormat.NumericLineIgnored | src/lib/subtitle/parser.ts:77 | a line that is all digits after trimming changes nothing |
| VttFormat.PreambleIgnored | src/lib/subtitle/parser.ts:53-80 | lines before the first timing line are never text: without a timing line an idle state is left unchanged |
| VttFormat.TimingLineOpens | src/lib/subtitle/parser.ts:67-73 | a timing line opens a cue with both stamps' `.` turned into `,` and the counter incremented |
| VttFormat.SwapSeparator | src/lib/subtitle/parser.ts:69-70 | replacing the first `.` of a VTT stamp yields the SRT stamp with `,` in that place |
| VttFormat.BlankLineCloses | src/lib/subtitle/parser.ts:57-63 | a blank line emits the open cue with its text and current id and returns to idle |
| VttFormat.TextLinesAppended | src/lib/subtitle/parser.ts:77-79 | inside a cue, text lines are appended to the text with line feeds between them |
| VttFormat.AppendedText | src/lib/subtitle/parser.ts:77-79 | appending the lines of a cue text rebuilds that text, which is already trimmed |
| VttFormat.SwapBack | src/lib/subtitle/parser.ts:238 | the writer's first-comma replacement yields a VTT stamp, and the reader's first-dot replacement restores the SRT stamp |
| VttFormat.CueRead | src/lib/subtitle/parser.ts:53-80 | from idle, the lines of one written cue emit that entry with the next id and leave the machine idle |
| VttFormat.ExportLinesRead | src/lib/subtitle/parser.ts:53-80 | from idle, the lines of written cues emit those entries numbered on from the counter |
| VttFormat.ExportSplit | src/lib/subtitle/parser.ts:236-242 | the written cues split into the number, timing and text lines of each cue, each cue followed by an empty line |
| VttFormat.ExportToVtt | src/lib/subtitle/parser.ts:236-242 | the header and the cues; its lines are stated by `VttFormat.ExportSplit`, its inverse by `VttFormat.ExportThenParseVtt` |
| VttFormat.ExportThenParseVtt | src/lib/subtitle/parser.ts:236-242 | `parseVTT(exportToVTT(es))` is es renumbered from 2 when the stamps are well formed and each text line is non-empty, trimmed, not a number and not a timing line |
| VttFormat.ExportNothingVtt | src/lib/subtitle/parser.ts:236-242 | the export of no entries reads back as no entries |
| AssFormat.LineFields | src/lib/subtitle/parser.ts:148-175 | what `splitASSLine` returns; `AssFormat.LineFieldsJoin`, `AssFormat.LineFieldsNoSplitComma` and `AssFormat.CommaCuts` state its properties |
| AssFormat.SplitAssLine | src/lib/subtitle/parser.ts:148-175 | the character loop returns the fields of the brace-aware scan, without an empty last field |
| AssFormat.InBracesSnoc | src/lib/subtitle/parser.ts:156-161 | `{` sets the brace flag, `}` clears it, and any other character leaves it |
| AssFormat.FieldsJoin | src/lib/subtitle/parser.ts:153-168 | the scan loses nothing: its fields joined with `,` give back the input |
| AssFormat.LineFieldsJoin | src/lib/subtitle/parser.ts:170-172 | the fields joined with `,` are the line, minus the last comma when the line ends in an unbraced comma |
| AssFormat.LastFieldEmpty | src/lib/subtitle/parser.ts:170-172 | the last field is empty exactly when the line is empty or ends in an unbraced comma |
| AssFormat.LineFieldsNoSplitComma | src/lib/subtitle/parser.ts:156-164 | no field holds a comma outside braces |
| AssFormat.CommaCuts | src/lib/subtitle/parser.ts:130 | a field ends at the first unbraced comma, so a comma in the text field cuts the text there |
| AssFormat.RemoveOverrides | src/lib/subtitle/parser.ts:133 | `replace(/{[^}]*}/g, '')`; `AssFormat.OverridesRemoved`, `AssFormat.NoOverrideKept`, `AssFormat.NoCloseKept` and `AssFormat.RemoveOverridesIdempotent` state its properties |
| AssFormat.NoCloseKept | src/lib/subtitle/parser.ts:133 | text without `}` is left unchanged |
| AssFormat.OverridesRemoved | src/lib/subtitle/parser.ts:133 | after the removal no `{` is followed by a `}` |
| AssFormat.NoOverrideKept | src/lib/subtitle/parser.ts:133 | text with no `{…}` block is left unchanged |
| AssFormat.RemoveOverridesIdempotent | src/lib/subtitle/parser.ts:133 | removing the override blocks twice is removing them once |
| AssFormat.LineBreaksBack | src/lib/subtitle/parser.ts:135 | on text without line feeds, writing each line feed back as `\N` undoes the replacement |
| AssFormat.CleanText | src/lib/subtitle/parser.ts:133-135 | the override blocks removed, then `\N` turned into line feeds; stated by the lemmas on its two stages |
| AssFormat.FindColumn | src/lib/subtitle/parser.ts:117-119 | the result is the first column whose lower-cased name is the one sought, and -1 iff there is none |
| AssFormat.Max3 | src/lib/subtitle/parser.ts:127 | the result is one of the three and at least each of them |
| AssFormat.ReadFormat | src/lib/subtitle/parser.ts:112-121 | a `Format:` line sets only the three column indices |
| AssFormat.ReadDialogue | src/lib/subtitle/parser.ts:124-139 | a `Dialogue:` line leaves the columns alone and either changes nothing or appends one entry carrying the current id and increments the id |
| AssFormat.ReadFields | src/lib/subtitle/parser.ts:127-138 | with more fields than the largest column index, one entry is appended with the current id and the id is incremented; otherwise nothing changes; the columns are never touched |
| AssFormat.AssStep | src/lib/subtitle/parser.ts:104-139 | one turn of the loop; it keeps the columns set, and its `Dialogue:` case is stated by `AssFormat.DialogueStep` and `AssFormat.DialogueGate` |
| AssFormat.AssEntries | src/lib/subtitle/parser.ts:93-143 | what `parseASS` returns; `AssFormat.ParseAss` is proved equal to it and `AssFormat.AssEntriesIds`, `AssFormat.NoEventsNoEntries` and `AssFormat.NoFormatNoEntries` state its properties |
| AssFormat.ParseAss | src/lib/subtitle/parser.ts:93-143 | the loop returns the entries of the state machine run over the lines |
| AssFormat.DialogueStep | src/lib/subtitle/parser.ts:124-139 | a `Dialogue:` line yields an entry iff it comes inside `[Events]`, all three columns are known and it has more fields than the largest column index; the entry takes the converted stamps and the cleaned text field |
| AssFormat.DialogueGate | src/lib/subtitle/parser.ts:124 | outside `[Events]`, or before a `Format:` line naming all three columns, a `Dialogue:` line changes nothing |
| AssFormat.DialogueLine | src/lib/subtitle/parser.ts:106-124 | a `Dialogue:` line is neither the `[Events]` line nor a `Format:` line |
| AssFormat.RunAssIds | src/lib/subtitle/parser.ts:102 | ids stay 1, 2, 3, … in emission order over any run of lines |
| AssFormat.AssEntriesIds | src/lib/subtitle/parser.ts:137 | entry k carries id k + 1 |
| AssFormat.NoEventsNoEntries | src/lib/subtitle/parser.ts:106-109 | content without an `[Events]` line yields no entry |
| AssFormat.NoFormatNoEntries | src/lib/subtitle/parser.ts:112-124 | content without a `Format:` line yields no entry |
| AssFormat.FindColumnPermuted | src/lib/subtitle/parser.ts:117-119 | permuting the columns moves the column found along with them |
| AssFormat.ColumnPermutation | src/lib/subtitle/parser.ts:112-137 | permuting the columns consistently in the `Format:` and `Dialogue:` lines yields the same entry |
| SubtitleParser.StripBom | src/lib/subtitle/parser.ts:201 | at most one leading byte-order mark is removed, and one is removed exactly when the content starts with it |
| SubtitleParser.StripBomCases | src/lib/subtitle/parser.ts:201 | a leading mark is dropped and content without one is left alone |
| SubtitleParser.DetectFormat | src/lib/subtitle/parser.ts:203-218 | VTT iff the content contains `WEBVTT`; ASS iff it does not but contains `[Script Info]`; SRT otherwise; never unknown |
| SubtitleParser.Parsed | src/lib/subtitle/parser.ts:199-219 | the format tag is the detected format of the content without its mark, never unknown, and the entries are what that format's parser reads |
| SubtitleParser.ParseSubtitle | src/lib/subtitle/parser.ts:199-219 | the dispatch calls the parser of the detected format on the content without its mark |
| SubtitleParser.VttExportDetected | src/lib/subtitle/parser.ts:203-207 | a file the VTT writer produced is detected as VTT and read back renumbered from 2 |
| SubtitleParser.SrtExportDetected | src/lib/subtitle/parser.ts:213-217 | a file the SRT writer produced, with neither marker string in it, is detected as SRT and read back renumbered from 1 |
| SubtitleParser.ExportStartsPlain | src/lib/subtitle/parser.ts:225-231 | the SRT writer's output never starts with a byte-order mark |
| SubtitleParser.MarkerInTextWins | src/lib/subtitle/parser.ts:203 | content containing `WEBVTT` anywhere goes to the VTT parser |
| SubtitleUtils.UtilBlockEntries | src/utils/subtitleUtils.ts:16-31 | there are never more entries than blocks |
| SubtitleUtils.UtilBlockEntryCases | src/utils/subtitleUtils.ts:17-30 | a block yields an entry iff it has three or more lines and its trimmed second line holds a timing; the entry has the leftmost timing's stamps, the first line read with no radix as id, and lines 3.. joined with line feeds as text |
| SubtitleUtils.UtilBlockEntry | src/utils/subtitleUtils.ts:17-30 | the entry of one block in the second parser; stated by `SubtitleUtils.UtilBlockEntryCases` and `SubtitleUtils.IdCueEntry` |
| SubtitleUtils.ReadUtilBlock | src/utils/subtitleUtils.ts:17-30 | the body of the loop on one block returns the entries so far with exactly the entry the block yields pushed, or unchanged when it yields none |
| SubtitleUtils.ReadUtilBlocks | src/utils/subtitleUtils.ts:16-31 | the loop over the blocks returns exactly the entries of the blocks, in block order |
| SubtitleUtils.UtilSrtEntries | src/utils/subtitleUtils.ts:12-34 | what the second `parseSRT` returns; `SubtitleUtils.ParseSrtUtil` is proved equal to it and `SubtitleUtils.FormatThenParse` reads `formatToSRT` back through it |
| SubtitleUtils.ParseSrtUtil | src/utils/subtitleUtils.ts:12-34 | returns exactly the entries of the blocks, reading the timing from the trimmed second line and the id with no radix |
| SubtitleUtils.HexIndexLine | src/utils/subtitleUtils.ts:20 | `0x10` is read as 16 with no radix and as 0 with radix ten |
| SubtitleUtils.FormatToSrt | src/utils/subtitleUtils.ts:39-43 | the cues under their own ids joined by one blank line; its blocks are stated by `SubtitleUtils.FormattedBlocks`, its inverse by `SubtitleUtils.FormatThenParse` |
| SubtitleUtils.IdCues | src/utils/subtitleUtils.ts:39-43 | cue k is written under the entry's own id, not renumbered |
| SubtitleUtils.IdLine | src/utils/subtitleUtils.ts:41 | the written id is one non-empty line with no white space at either end |
| SubtitleUtils.IdCueEntry | src/utils/subtitleUtils.ts:17-30 | one written cue reads back as the entry it was written from, id included |
| SubtitleUtils.IdCuesEntries | src/utils/subtitleUtils.ts:16-31 | the written cues read back as the entries |
| SubtitleUtils.FormattedBlocks | src/utils/subtitleUtils.ts:14 | the blocks of `formatToSRT(es)` are the written cues: one blank line between them and no trailing line feed |
| SubtitleUtils.FormatThenParse | src/utils/subtitleUtils.ts:12-43 | `parseSRT(formatToSRT(es))` is es, ids included, under the conditions of the `exportToSRT` round trip |
| SubtitleUtils.FormatNothing | src/utils/subtitleUtils.ts:39-43 | no entries are written as the empty string, which reads back as no entries |
| SubtitleUtils.EntriesToText | src/utils/subtitleUtils.ts:49-51 | the texts joined by `||||`; `SubtitleUtils.TransportRoundTrip` states that `applyTextToEntries` undoes it |
| SubtitleUtils.Texts | src/utils/subtitleUtils.ts:50 | text k is entry k's text |
| SubtitleUtils.Applied | src/utils/subtitleUtils.ts:64-73 | entry k keeps everything but its text, which becomes segment k trimmed |
| SubtitleUtils.ApplyTextToEntries | src/utils/subtitleUtils.ts:56-74 | the entries with the `||||` segments applied; stated by `SubtitleUtils.ApplyParts` and `SubtitleUtils.TransportRoundTrip` |
| SubtitleUtils.ApplyParts | src/utils/subtitleUtils.ts:56-74 | never fails; the length is the minimum of the segment count and the entry count; entry i keeps its id and both stamps, in order, and its text becomes segment i trimmed |
| SubtitleUtils.TransportRoundTrip | src/utils/subtitleUtils.ts:49-74 | applying `entriesToText(es)` back onto es gives es with every text trimmed, when no text contains a vertical bar |
| SubtitleUtils.TrailingPipeShifts | src/utils/subtitleUtils.ts:57 | a text ending in a vertical bar moves that bar into the next segment |
| SubtitleUtils.ReadSegment | src/utils/subtitleUtils.ts:83-90 | one segment's record; `SubtitleUtils.MarkedSegment` and `SubtitleUtils.MarkerAfter` state what it reads from a marked and an unmarked segment |
| SubtitleUtils.ReadSegments | src/utils/subtitleUtils.ts:83-91 | one record per segment, in order |
| SubtitleUtils.ParseModifiedSubtitles | src/utils/subtitleUtils.ts:80-92 | exactly one record per segment between four-bar separators |
| SubtitleUtils.MarkedSegment | src/utils/subtitleUtils.ts:84-85 | a trimmed segment without the marker reads as itself, unmodified; with ` [MODIFIED]` appended it reads as itself, modified |
| SubtitleUtils.MarkerAfter | src/utils/subtitleUtils.ts:85 | the first marker in a marked segment is the appended one |
| SubtitleUtils.ModifiedExample | src/utils/subtitleUtils.ts:80-92 | the segments `foo [MODIFIED]` and `bar` around a four-bar separator read as `foo` modified and `bar` unmodified |
| SubtitleUtils.CompareSubtitles | src/utils/subtitleUtils.ts:97-108 | the original segments, each trimmed, beside the marker records of the repaired text |
| SubtitleUtils.CompareUnpaired | src/utils/subtitleUtils.ts:97-108 | the two lists may differ in length: one original segment beside two repaired records |
| SubtitleUtils.FormatForDisplay | src/utils/subtitleUtils.ts:114-117 | each line feed becomes `<br>`; `SubtitleUtils.DisplayRoundTrip` states that it leaves no line feed and can be undone |
| SubtitleUtils.DisplayRoundTrip | src/utils/subtitleUtils.ts:114-117 | the display text holds no line feed, and on text without `<` each `<br>` written back as a line feed restores the text |
| Highlight.Pieces | src/utils/subtitleUtils.ts:133-154 | one piece per remaining token of the modified text, in order, with that token as its text; a kept piece's token occurs in what remains of the original |
| Highlight.Highlighted | src/utils/subtitleUtils.ts:122-157 | what `highlightDifferences` returns; `Highlight.HighlightKeepsText` and `Highlight.HighlightSame` state its properties |
| Highlight.HighlightDifferences | src/utils/subtitleUtils.ts:122-157 | the two loops return the rendered walk, or `modified` when either input is empty |
| Highlight.Walk | src/utils/subtitleUtils.ts:130-154 | the two cursor loops emit exactly the rendered pieces of the walk from the start of both token lists |
| Highlight.RenderKept | src/utils/subtitleUtils.ts:133-137 | equal tokens are emitted verbatim and both cursors advance |
| Highlight.RenderMarked | src/utils/subtitleUtils.ts:138-154 | an unmatched token is emitted in the highlight span, and the original cursor skips one token only when the token after it equals the next modified token |
| Highlight.PlainPieces | src/utils/subtitleUtils.ts:127-156 | without markup the pieces spell the remaining modified tokens |
| Highlight.HighlightKeepsText | src/utils/subtitleUtils.ts:122-157 | stripping the highlight spans gives back `modified`: every token is emitted once, in order |
| Highlight.KeptRendersPlain | src/utils/subtitleUtils.ts:133-136 | pieces with no mark render as their plain text |
| Highlight.SameTokensKept | src/utils/subtitleUtils.ts:133-137 | equal token lists walk in step and nothing is marked |
| Highlight.HighlightSame | src/utils/subtitleUtils.ts:122-157 | highlighting a text against itself returns it unchanged |
| Highlight.ReplacedWordExample | src/utils/subtitleUtils.ts:138-147 | a replaced word is marked and the walk resynchronises on the next token |
| Highlight.InsertedWordExample | src/utils/subtitleUtils.ts:138-147 | an inserted word is marked together with the space after it |

## Left out

- User interface, pages, API routes and the model-vendor services are not part of this model: they are rendering, network I/O and streaming.
- Reading files (`FileReader`) is left out: content arrives as a string parameter.
- The `console.warn` in `applyTextToEntries` (`src/utils/subtitleUtils.ts:61`) is a side effect with no effect on the result, so it is omitted.
- The `formatLine` variable of `parseASS` is not kept in the state: it is assigned and never read, except to compute the columns, which are kept.
- JavaScript numbers are modelled as unbounded integers plus NaN. Ids beyond 2^53, where `parseInt` loses precision, and beyond 10^21, where `${id}` switches to exponent notation, are not modelled.
- `toLowerCase` is modelled on ASCII letters only. That is exact for comparing column names with `text`, `start` and `end`: no other character lowers onto one of their letters except the Kelvin sign (U+212A), which `toLowerCase` maps to `k`, a letter none of the three names holds.
- JavaScript strings are sequences of UTF-16 code units; here they are sequences of characters. Every pattern in the modelled code matches only characters of the Basic Multilingual Plane, so the two readings give the same results.
- SubtitleParser.SrtExportDetected: requires that neither marker string occurs in the written file rather than deriving that from the entries, since a cue text may contain either marker and then changes the detected format.
- Highlight.HighlightDifferences: the bound "the first loop runs at most |tokens(modified)| times" is given by the loop's termination measure, not as a separate contract.
