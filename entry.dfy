/** The subtitle entry, `SubtitleEntry`, declared in parser.ts and in subtitleUtils.ts: an id,
    the two timestamps as strings and the text. */
module Entries {
  import opened JsString

  datatype SubtitleEntry = SubtitleEntry(id: JsInt, startTime: string, endTime: string, text: string)

  /** The entries with their ids replaced by first, first + 1, ... in order. */
  function Renumbered(es: seq<SubtitleEntry>, first: int): (r: seq<SubtitleEntry>)
    ensures |r| == |es|
    ensures forall k :: 0 <= k < |es| ==> r[k] == es[k].(id := Int(first + k))
  {
    if es == [] then [] else [es[0].(id := Int(first))] + Renumbered(es[1..], first + 1)
  }

  /** The entries with every text trimmed. */
  function TrimmedTexts(es: seq<SubtitleEntry>): (r: seq<SubtitleEntry>)
    ensures |r| == |es|
    ensures forall k :: 0 <= k < |es| ==> r[k] == es[k].(text := Trim(es[k].text))
  {
    if es == [] then [] else [es[0].(text := Trim(es[0].text))] + TrimmedTexts(es[1..])
  }
}
