/** `highlightDifferences` (subtitleUtils.ts:122-157): a greedy word-by-word walk over the
    original and the repaired text that wraps every token of the repaired text not matched in
    the original in a highlight span. */
module Highlight {
  import opened JsString

  /** One token of the repaired text as the walk emits it. */
  datatype Piece = Kept(text: string) | Marked(text: string)

  const SpanOpen: string := "<span class=\"bg-yellow-200 text-yellow-800\">"
  const SpanClose: string := "</span>"

  /** `s.split(/(\s+)/)`: words and the white-space runs between them, in order. */
  function Tokens(s: string): seq<string> {
    Split(s, CapturedSpaceRun)
  }

  /** The pieces the walk emits from token i of the original and token j of the repaired text
      on. Equal tokens are kept and both sides advance; otherwise the repaired token is marked
      and the original side skips one token when the token after it equals the next repaired
      token. Once the original is used up the rest is marked. */
  function Pieces(w1: seq<string>, w2: seq<string>, i: nat, j: nat): (r: seq<Piece>)
    requires i <= |w1| && j <= |w2|
    ensures |r| == |w2| - j
    ensures forall k :: 0 <= k < |r| ==> r[k].text == w2[j + k]
    ensures forall k :: 0 <= k < |r| && r[k].Kept? ==> r[k].text in w1[i..]
    decreases |w2| - j
  {
    if j == |w2| then []
    else if i < |w1| && w1[i] == w2[j] then
      var rest := Pieces(w1, w2, i + 1, j + 1);
      assert forall k :: 0 <= k < |rest| && rest[k].Kept? ==> rest[k].text in w1[i..] by {
        assert w1[i + 1..] == w1[i..][1..];
      }
      [Kept(w2[j])] + rest
    else if i < |w1| then
      var next := if i + 1 < |w1| && j + 1 < |w2| && w1[i + 1] == w2[j + 1] then i + 1 else i;
      var rest := Pieces(w1, w2, next, j + 1);
      assert forall k :: 0 <= k < |rest| && rest[k].Kept? ==> rest[k].text in w1[i..] by {
        assert w1[next..] == w1[i..][next - i..];
      }
      [Marked(w2[j])] + rest
    else [Marked(w2[j])] + Pieces(w1, w2, i, j + 1)
  }

  /** The markup one piece becomes. */
  function RenderPiece(p: Piece): string {
    match p
    case Kept(t) => t
    case Marked(t) => SpanOpen + t + SpanClose
  }

  function Render(ps: seq<Piece>): string {
    if ps == [] then [] else RenderPiece(ps[0]) + Render(ps[1..])
  }

  /** The text of the pieces without markup. */
  function Plain(ps: seq<Piece>): string {
    if ps == [] then [] else ps[0].text + Plain(ps[1..])
  }

  /** What `highlightDifferences` returns: the repaired text itself when either side is empty,
      the rendered walk otherwise. */
  function Highlighted(original: string, modified: string): string {
    if original == [] || modified == [] then modified
    else Render(Pieces(Tokens(original), Tokens(modified), 0, 0))
  }

  /** `highlightDifferences`, with its two loops. */
  method HighlightDifferences(original: string, modified: string) returns (result: string)
    ensures result == Highlighted(original, modified)
  {
    if original == [] || modified == [] {
      return modified;
    }
    var words1 := Tokens(original);
    var words2 := Tokens(modified);
    result := Walk(words1, words2);
  }

  /** The two loops of `highlightDifferences` over the token lists. */
  method Walk(words1: seq<string>, words2: seq<string>) returns (result: string)
    ensures result == Render(Pieces(words1, words2, 0, 0))
  {
    ghost var whole := Render(Pieces(words1, words2, 0, 0));
    result := [];
    var i, j := 0, 0;
    while i < |words1| && j < |words2|
      invariant i <= |words1| && j <= |words2|
      invariant result + Render(Pieces(words1, words2, i, j)) == whole
      decreases |words2| - j
    {
      ghost var before := result;
      if words1[i] == words2[j] {
        RenderKept(words1, words2, i, j);
        ghost var tail := Render(Pieces(words1, words2, i + 1, j + 1));
        result := result + words2[j];
        i := i + 1;
        j := j + 1;
        Assoc(before, words2[j - 1], tail);
      } else {
        ghost var next := if i + 1 < |words1| && j + 1 < |words2| && words1[i + 1] == words2[j + 1] then i + 1 else i;
        ghost var span := SpanOpen + words2[j] + SpanClose;
        ghost var tail := Render(Pieces(words1, words2, next, j + 1));
        RenderMarked(words1, words2, i, j, next);
        result := result + (SpanOpen + words2[j] + SpanClose);
        j := j + 1;
        if i + 1 < |words1| && j < |words2| && words1[i + 1] == words2[j] {
          i := i + 1;
        }
        assert i == next;
        Assoc(before, span, tail);
      }
    }
    while j < |words2|
      invariant i <= |words1| && j <= |words2|
      invariant i == |words1| || j == |words2|
      invariant result + Render(Pieces(words1, words2, i, j)) == whole
      decreases |words2| - j
    {
      ghost var before := result;
      ghost var span := SpanOpen + words2[j] + SpanClose;
      ghost var tail := Render(Pieces(words1, words2, i, j + 1));
      RenderMarked(words1, words2, i, j, i);
      result := result + (SpanOpen + words2[j] + SpanClose);
      j := j + 1;
      Assoc(before, span, tail);
    }
  }

  lemma Assoc(a: string, b: string, c: string)
    ensures a + b + c == a + (b + c)
  {
  }

  /** One step of the walk over equal tokens. */
  lemma RenderKept(w1: seq<string>, w2: seq<string>, i: nat, j: nat)
    requires i < |w1| && j < |w2| && w1[i] == w2[j]
    ensures Render(Pieces(w1, w2, i, j)) == w2[j] + Render(Pieces(w1, w2, i + 1, j + 1))
  {
    var ps := Pieces(w1, w2, i, j);
    assert ps[0] == Kept(w2[j]) && ps[1..] == Pieces(w1, w2, i + 1, j + 1);
  }

  /** One step of the walk over a token the original does not match there. */
  lemma RenderMarked(w1: seq<string>, w2: seq<string>, i: nat, j: nat, next: nat)
    requires i <= |w1| && j < |w2| && !(i < |w1| && w1[i] == w2[j])
    requires next == if i + 1 < |w1| && j + 1 < |w2| && w1[i + 1] == w2[j + 1] then i + 1 else i
    ensures Render(Pieces(w1, w2, i, j)) == SpanOpen + w2[j] + SpanClose + Render(Pieces(w1, w2, next, j + 1))
  {
    var ps := Pieces(w1, w2, i, j);
    assert ps[0] == Marked(w2[j]) && ps[1..] == Pieces(w1, w2, next, j + 1);
  }

  // ---------------------------------------------------------------- properties

  /** The plain text of the pieces from token j on is the rest of the repaired tokens. */
  lemma {:induction false} PlainPieces(w1: seq<string>, w2: seq<string>, i: nat, j: nat)
    requires i <= |w1| && j <= |w2|
    ensures Plain(Pieces(w1, w2, i, j)) == Concat(w2[j..])
    decreases |w2| - j
  {
    var ps := Pieces(w1, w2, i, j);
    if j < |w2| {
      var next := if i < |w1| && w1[i] == w2[j] then i + 1
                  else if i < |w1| && i + 1 < |w1| && j + 1 < |w2| && w1[i + 1] == w2[j + 1] then i + 1
                  else i;
      PlainPieces(w1, w2, next, j + 1);
      assert ps[1..] == Pieces(w1, w2, next, j + 1);
      assert w2[j..][1..] == w2[j + 1..];
    }
  }

  /** Removing the markup gives the repaired text back: the walk emits every token of the
      repaired text once, in order. */
  lemma HighlightKeepsText(original: string, modified: string)
    requires original != [] && modified != []
    ensures Plain(Pieces(Tokens(original), Tokens(modified), 0, 0)) == modified
  {
    PlainPieces(Tokens(original), Tokens(modified), 0, 0);
    ConcatSplitSpaces(modified, []);
    assert Tokens(modified)[0..] == Tokens(modified);
    assert [] + modified == modified;
  }

  /** Pieces without a mark render as their plain text. */
  lemma {:induction false} KeptRendersPlain(ps: seq<Piece>)
    requires forall k :: 0 <= k < |ps| ==> ps[k].Kept?
    ensures Render(ps) == Plain(ps)
  {
    if ps != [] {
      KeptRendersPlain(ps[1..]);
    }
  }

  /** Two equal token lists walk in step: nothing is marked. */
  lemma {:induction false} SameTokensKept(w: seq<string>, i: nat)
    requires i <= |w|
    ensures forall k :: 0 <= k < |Pieces(w, w, i, i)| ==> Pieces(w, w, i, i)[k].Kept?
    decreases |w| - i
  {
    if i < |w| {
      SameTokensKept(w, i + 1);
      assert Pieces(w, w, i, i) == [Kept(w[i])] + Pieces(w, w, i + 1, i + 1);
    }
  }

  /** Highlighting a text against itself marks nothing and returns it unchanged. */
  lemma HighlightSame(s: string)
    ensures Highlighted(s, s) == s
  {
    if s != [] {
      var w := Tokens(s);
      SameTokensKept(w, 0);
      KeptRendersPlain(Pieces(w, w, 0, 0));
      HighlightKeepsText(s, s);
    }
  }

  /** A replaced word is marked and the walk resynchronises on the token after it. */
  lemma ReplacedWordExample()
    ensures Pieces(["a", " ", "b"], ["c", " ", "b"], 0, 0) == [Marked("c"), Kept(" "), Kept("b")]
  {
    var w1 := ["a", " ", "b"];
    var w2 := ["c", " ", "b"];
    assert Pieces(w1, w2, 0, 0) == [Marked("c")] + Pieces(w1, w2, 1, 1);
    assert Pieces(w1, w2, 1, 1) == [Kept(" ")] + Pieces(w1, w2, 2, 2);
    assert Pieces(w1, w2, 2, 2) == [Kept("b")] + Pieces(w1, w2, 3, 3);
  }

  /** An inserted word is marked together with the space after it, since the original side
      skips at most one token per mismatch. */
  lemma InsertedWordExample()
    ensures Pieces(["a", " ", "b"], ["a", " ", "x", " ", "b"], 0, 0)
         == [Kept("a"), Kept(" "), Marked("x"), Marked(" "), Kept("b")]
  {
    var w1 := ["a", " ", "b"];
    var w2 := ["a", " ", "x", " ", "b"];
    assert Pieces(w1, w2, 0, 0) == [Kept("a")] + Pieces(w1, w2, 1, 1);
    assert Pieces(w1, w2, 1, 1) == [Kept(" ")] + Pieces(w1, w2, 2, 2);
    assert Pieces(w1, w2, 2, 2) == [Marked("x")] + Pieces(w1, w2, 2, 3);
    assert Pieces(w1, w2, 2, 3) == [Marked(" ")] + Pieces(w1, w2, 2, 4);
    assert Pieces(w1, w2, 2, 4) == [Kept("b")] + Pieces(w1, w2, 3, 5);
  }
}
