/** `parseSubtitle` (parser.ts:199-219): the entry point that drops a byte-order mark, picks the
    format from marker strings in the content and hands the content to that format's parser. */
module SubtitleParser {
  import opened JsString
  import opened Entries
  import opened SrtFormat
  import opened VttFormat
  import opened AssFormat

  /** The `format` union of `ParsedSubtitle`; `Unknown` is declared but never produced. */
  datatype SubtitleFormat = Srt | Vtt | Ass | Unknown

  datatype ParsedSubtitle = ParsedSubtitle(format: SubtitleFormat, entries: seq<SubtitleEntry>)

  const Bom: char := '\U{FEFF}'

  /** `content.replace(/^\uFEFF/, '')`: one leading byte-order mark is removed, no more. */
  function StripBom(content: string): (r: string)
    ensures r == content || [Bom] + r == content
    ensures r != content <==> (content != [] && content[0] == Bom)
  {
    if content != [] && content[0] == Bom then content[1..] else content
  }

  /** The format chosen from the content: `WEBVTT` anywhere wins, then `[Script Info]`
      anywhere, and everything else is read as SRT. */
  function DetectFormat(content: string): (r: SubtitleFormat)
    ensures r != Unknown
    ensures r == Vtt <==> Contains(content, "WEBVTT")
    ensures r == Ass <==> !Contains(content, "WEBVTT") && Contains(content, "[Script Info]")
  {
    if Contains(content, "WEBVTT") then Vtt
    else if Contains(content, "[Script Info]") then Ass
    else Srt
  }

  /** The entries the parser of a format reads from the content. */
  function EntriesAs(format: SubtitleFormat, content: string): seq<SubtitleEntry>
    requires format != Unknown
  {
    match format
    case Vtt => VttEntries(content)
    case Ass => AssEntries(content)
    case Srt => SrtEntries(content)
  }

  /** What `parseSubtitle` returns. */
  function Parsed(content: string): (r: ParsedSubtitle)
    ensures r.format != Unknown
    ensures r.format == DetectFormat(StripBom(content))
    ensures r.entries == EntriesAs(r.format, StripBom(content))
  {
    var c := StripBom(content);
    ParsedSubtitle(DetectFormat(c), EntriesAs(DetectFormat(c), c))
  }

  /** `parseSubtitle`. */
  method ParseSubtitle(content: string) returns (r: ParsedSubtitle)
    ensures r == Parsed(content)
  {
    var c := StripBom(content);
    if Contains(c, "WEBVTT") {
      var entries := ParseVtt(c);
      r := ParsedSubtitle(Vtt, entries);
    } else if Contains(c, "[Script Info]") {
      var entries := ParseAss(c);
      r := ParsedSubtitle(Ass, entries);
    } else {
      var entries := ParseSrt(c);
      r := ParsedSubtitle(Srt, entries);
    }
  }

  // ---------------------------------------------------------------- properties

  /** A leading mark is dropped and a text without one is left alone. */
  lemma StripBomCases(s: string)
    ensures StripBom([Bom] + s) == s
    ensures (s == [] || s[0] != Bom) ==> StripBom(s) == s
  {
    assert ([Bom] + s)[1..] == s;
  }

  /** A file the VTT writer produced is detected as VTT and read back with its cues numbered
      from 2. */
  lemma VttExportDetected(es: seq<SubtitleEntry>)
    requires forall k :: 0 <= k < |es| ==> VttExportable(es[k])
    ensures Parsed(ExportToVtt(es)) == ParsedSubtitle(Vtt, Renumbered(es, 2))
  {
    var out := ExportToVtt(es);
    assert StripBom(out) == out && Contains(out, "WEBVTT") by {
      HeaderMarked(Join(VttBlocks(es, 1), "\n"));
    }
    ParsedVtt(out);
    ExportThenParseVtt(es);
  }

  /** Content without a leading mark that holds the VTT marker is read by the VTT parser. */
  lemma ParsedVtt(c: string)
    requires StripBom(c) == c && Contains(c, "WEBVTT")
    ensures Parsed(c) == ParsedSubtitle(Vtt, VttEntries(c))
  {
  }

  /** Text behind the VTT header carries the marker and no byte-order mark. */
  lemma HeaderMarked(rest: string)
    ensures StripBom("WEBVTT\n\n" + rest) == "WEBVTT\n\n" + rest
    ensures Contains("WEBVTT\n\n" + rest, "WEBVTT")
  {
    var out := "WEBVTT\n\n" + rest;
    assert out[0] == 'W';
    assert out[..6] == "WEBVTT";
    assert OccursAt(out, "WEBVTT", 0);
  }

  /** A file the SRT writer produced is detected as SRT and read back with its cues numbered
      from 1, as long as no text brings in one of the two marker strings. */
  lemma SrtExportDetected(es: seq<SubtitleEntry>)
    requires forall k :: 0 <= k < |es| ==> Exportable(es[k])
    requires es != [] ==> EndsInNonSpace(es[|es| - 1].text)
    requires !Contains(ExportToSrt(es), "WEBVTT") && !Contains(ExportToSrt(es), "[Script Info]")
    ensures Parsed(ExportToSrt(es)) == ParsedSubtitle(Srt, Renumbered(es, 1))
  {
    ExportStartsPlain(es);
    ExportThenParse(es);
  }

  /** The SRT writer's output never starts with a byte-order mark. */
  lemma ExportStartsPlain(es: seq<SubtitleEntry>)
    ensures StripBom(ExportToSrt(es)) == ExportToSrt(es)
  {
    var out := ExportToSrt(es);
    if es != [] {
      var blocks := ExportBlocks(es, 1);
      assert blocks[0] == Cue(NatToString(1), es[0]) + "\n";
      assert out[0] == blocks[0][0];
    }
  }

  /** A marker string in the text of a cue decides the format: an SRT file one of whose lines
      reads `WEBVTT` goes to the VTT parser. */
  lemma MarkerInTextWins(content: string)
    requires (content == [] || content[0] != Bom) && Contains(content, "WEBVTT")
    ensures Parsed(content).format == Vtt && Parsed(content).entries == VttEntries(content)
  {
    StripBomCases(content);
  }
}
