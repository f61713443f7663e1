/** The part of ECMAScript string and number semantics that the subtitle code relies on:
    `trim`, `split` (on a literal and on the three regular expressions the code uses),
    `join`, `includes`, `startsWith`, `replace`, `padStart`, `toLowerCase` on ASCII,
    `parseInt` and the decimal rendering of an integer. */
module JsString {

  datatype Option<T> = None | Some(value: T)

  /** The zero or one elements an option holds. */
  function ToSeq<T>(o: Option<T>): (r: seq<T>)
    ensures o.None? ==> r == []
    ensures o.Some? ==> r == [o.value]
  {
    match o
    case None => []
    case Some(v) => [v]
  }

  /** A JavaScript number as the subtitle code produces it: an integer, or the NaN that
      `parseInt` returns when it finds no digit. */
  datatype JsInt = Int(value: int) | NaN

  /** ECMAScript WhiteSpace and LineTerminator: what `trim` removes and what `\s` matches. */
  predicate IsSpace(c: char) {
    c == '\t' || c == '\n' || c == '\U{000B}' || c == '\U{000C}' || c == '\r' || c == ' '
    || c == '\U{00A0}' || c == '\U{1680}' || ('\U{2000}' <= c <= '\U{200A}')
    || c == '\U{2028}' || c == '\U{2029}' || c == '\U{202F}' || c == '\U{205F}'
    || c == '\U{3000}' || c == '\U{FEFF}'
  }

  /** No character of s is a carriage return. */
  predicate NoCarriageReturn(s: string) {
    forall k :: 0 <= k < |s| ==> s[k] != '\r'
  }

  /** `\d` without the `u` flag: ASCII digits only. */
  predicate IsDigit(c: char) {
    '0' <= c <= '9'
  }

  /** `/^\d+$/.test(s)`. */
  predicate AllDigits(s: string) {
    s != [] && forall k :: 0 <= k < |s| ==> IsDigit(s[k])
  }

  // ---------------------------------------------------------------- trim

  function TrimStart(s: string): (r: string)
    ensures |r| <= |s| && r == s[|s| - |r|..]
    ensures r == [] || !IsSpace(r[0])
    ensures forall k :: 0 <= k < |s| - |r| ==> IsSpace(s[k])
  {
    if s != [] && IsSpace(s[0]) then TrimStart(s[1..]) else s
  }

  function TrimEnd(s: string): (r: string)
    ensures |r| <= |s| && r == s[..|r|]
    ensures r == [] || !IsSpace(r[|r| - 1])
    ensures forall k :: |r| <= k < |s| ==> IsSpace(s[k])
  {
    if s != [] && IsSpace(s[|s| - 1]) then TrimEnd(s[..|s| - 1]) else s
  }

  /** Neither end of a string is white space. */
  predicate Trimmed(s: string) {
    s == [] || (!IsSpace(s[0]) && !IsSpace(s[|s| - 1]))
  }

  /** `String.prototype.trim`. */
  function Trim(s: string): (r: string)
    ensures Trimmed(r)
    ensures Trimmed(s) ==> r == s
    ensures AllSpace(s) <==> r == []
  {
    var t := TrimStart(s);
    assert t != [] ==> !IsSpace(t[0]);
    var r := TrimEnd(t);
    assert r != [] ==> r[0] == t[0];
    r
  }

  /** `trim` cuts only white space, and only from the two ends: its result is the window of s
      that starts after the leading white space, with nothing but white space after it. */
  lemma TrimCutsEnds(s: string)
    ensures var r, i := Trim(s), LeadingSpaces(s);
            i + |r| <= |s| && r == s[i..i + |r|] && AllSpace(s[..i]) && AllSpace(s[i + |r|..])
  {
    var t := TrimStart(s);
    var r := TrimEnd(t);
    assert Trim(s) == r;
    TrimWindow(s, t, r);
  }

  /** Every character of t is white space. */
  predicate AllSpace(t: string) {
    forall k :: 0 <= k < |t| ==> IsSpace(t[k])
  }

  /** The number of white-space characters s starts with. */
  function LeadingSpaces(s: string): (n: nat)
    ensures n <= |s| && AllSpace(s[..n])
    ensures n < |s| ==> !IsSpace(s[n])
  {
    |s| - |TrimStart(s)|
  }

  /** Cutting white space from the front (t) and then from the back (r) leaves the window of s
      that starts after its leading white space, with only white space after it. */
  lemma TrimWindow(s: string, t: string, r: string)
    requires |t| <= |s| && t == s[|s| - |t|..] && LeadingSpaces(s) == |s| - |t|
    requires |r| <= |t| && r == t[..|r|] && forall k :: |r| <= k < |t| ==> IsSpace(t[k])
    ensures var i := LeadingSpaces(s);
            i + |r| <= |s| && r == s[i..i + |r|] && AllSpace(s[..i]) && AllSpace(s[i + |r|..])
  {
    var i := |s| - |t|;
    assert r == s[i..][..|r|];
    var tail := s[i + |r|..];
    forall k | 0 <= k < |tail| ensures IsSpace(tail[k]) {
      assert tail[k] == t[|r| + k];
    }
  }

  /** `xs.map(x => x.trim())`. */
  function TrimAll(xs: seq<string>): (r: seq<string>)
    ensures |r| == |xs|
    ensures forall k :: 0 <= k < |xs| ==> r[k] == Trim(xs[k])
  {
    if xs == [] then [] else [Trim(xs[0])] + TrimAll(xs[1..])
  }

  // ---------------------------------------------------------------- join

  /** `Array.prototype.join(sep)`. */
  function Join(parts: seq<string>, sep: string): string {
    if parts == [] then []
    else if |parts| == 1 then parts[0]
    else parts[0] + sep + Join(parts[1..], sep)
  }

  /** `Array.prototype.join('')`. */
  function Concat(parts: seq<string>): string {
    if parts == [] then [] else parts[0] + Concat(parts[1..])
  }

  // ---------------------------------------------------------------- split

  /** The separators the subtitle code splits on: a literal string, `/\r?\n/`,
      `/\r?\n\r?\n/` and `/(\s+)/`, whose capturing group keeps the separators. */
  datatype Separator = Literal(text: string) | LineBreak | BlankLine | CapturedSpaceRun

  /** Length of a `\r?\n` match at the start of s, 0 if none. */
  function NewlineLength(s: string): (n: nat)
    ensures n <= |s| && n <= 2
    ensures n > 0 <==> (s != [] && s[0] == '\n') || (|s| >= 2 && s[0] == '\r' && s[1] == '\n')
  {
    if |s| >= 2 && s[0] == '\r' && s[1] == '\n' then 2
    else if s != [] && s[0] == '\n' then 1
    else 0
  }

  /** Length of the greedy `\s+` match at the start of s, 0 if none. */
  function SpaceRunLength(s: string): (n: nat)
    ensures n <= |s|
    ensures forall k :: 0 <= k < n ==> IsSpace(s[k])
    ensures n < |s| ==> !IsSpace(s[n])
  {
    if s != [] && IsSpace(s[0]) then 1 + SpaceRunLength(s[1..]) else 0
  }

  /** Length of the separator's match at the start of s, 0 if it does not match there.
      (An empty literal never matches; the code never splits on one.) */
  function MatchLength(sep: Separator, s: string): (n: nat)
    ensures n <= |s|
  {
    match sep
    case Literal(t) => if |t| > 0 && t <= s then |t| else 0
    case LineBreak => NewlineLength(s)
    case BlankLine =>
      var h := NewlineLength(s);
      if h > 0 && NewlineLength(s[h..]) > 0 then h + NewlineLength(s[h..]) else 0
    case CapturedSpaceRun => SpaceRunLength(s)
  }

  /** The left-to-right scan of `String.prototype.split`: `part` is the piece read since the
      last separator. */
  function SplitFrom(s: string, sep: Separator, part: string): (r: seq<string>)
    ensures |r| >= 1
    decreases |s|
  {
    if s == [] then [part]
    else
      var n := MatchLength(sep, s);
      if n > 0 then [part] + (if sep.CapturedSpaceRun? then [s[..n]] else []) + SplitFrom(s[n..], sep, [])
      else SplitFrom(s[1..], sep, part + [s[0]])
  }

  /** `s.split(sep)`. */
  function Split(s: string, sep: Separator): seq<string> {
    SplitFrom(s, sep, [])
  }

  // ---------------------------------------------------------------- search and replace

  /** pat occurs in s at index k. */
  predicate OccursAt(s: string, pat: string, k: nat) {
    k + |pat| <= |s| && s[k..k + |pat|] == pat
  }

  function IndexOfFrom(s: string, pat: string, from: nat): (r: Option<nat>)
    ensures r.Some? ==> from <= r.value && OccursAt(s, pat, r.value)
    ensures r.Some? ==> forall k: nat :: from <= k < r.value ==> !OccursAt(s, pat, k)
    ensures r.None? ==> forall k: nat :: from <= k ==> !OccursAt(s, pat, k)
    decreases |s| - from
  {
    if from + |pat| > |s| then None
    else if s[from..from + |pat|] == pat then Some(from)
    else IndexOfFrom(s, pat, from + 1)
  }

  /** `s.indexOf(pat)`: the leftmost occurrence. */
  function IndexOf(s: string, pat: string): Option<nat> {
    IndexOfFrom(s, pat, 0)
  }

  /** `s.includes(pat)`. */
  predicate Contains(s: string, pat: string) {
    IndexOf(s, pat).Some?
  }

  /** `s.replace(pat, rep)` with a string pattern: only the leftmost occurrence is replaced. */
  function ReplaceFirst(s: string, pat: string, rep: string): string {
    match IndexOf(s, pat)
    case None => s
    case Some(k) => s[..k] + rep + s[k + |pat|..]
  }

  /** `s.replace(/pat/g, rep)` for a pattern that matches one fixed non-empty string. */
  function ReplaceAll(s: string, pat: string, rep: string): string
    requires |pat| > 0
    decreases |s|
  {
    if s == [] then []
    else if pat <= s then rep + ReplaceAll(s[|pat|..], pat, rep)
    else [s[0]] + ReplaceAll(s[1..], pat, rep)
  }

  /** `s.padStart(n, c)` with a one-character filler. */
  function PadStart(s: string, n: nat, c: char): (r: string)
    ensures |r| == if |s| >= n then |s| else n
    ensures s <= r[|r| - |s|..] && forall k :: 0 <= k < |r| - |s| ==> r[k] == c
    decreases n - |s|
  {
    if |s| >= n then s else PadStart([c] + s, n, c)
  }

  /** `toLowerCase` of one character, restricted to ASCII letters. */
  function LowerChar(c: char): char {
    if 'A' <= c <= 'Z' then (c as int + 32) as char else c
  }

  /** `toLowerCase` restricted to ASCII letters. */
  function LowerAscii(s: string): (r: string)
    ensures |r| == |s|
    ensures forall k :: 0 <= k < |s| ==> r[k] == LowerChar(s[k])
  {
    if s == [] then [] else [LowerChar(s[0])] + LowerAscii(s[1..])
  }

  // ---------------------------------------------------------------- numbers

  /** The radix argument of `parseInt`: an explicit 10, or absent (then a `0x` prefix means 16). */
  datatype RadixArgument = Ten | Absent

  /** The value of c as a digit in base 10 or 16, or -1. */
  function DigitValue(c: char, base: nat): int {
    if '0' <= c <= '9' then c as int - '0' as int
    else if base == 16 && 'a' <= c <= 'f' then c as int - 'a' as int + 10
    else if base == 16 && 'A' <= c <= 'F' then c as int - 'A' as int + 10
    else -1
  }

  /** Length of the longest prefix of s made of digits of the base. */
  function DigitPrefixLength(s: string, base: nat): (n: nat)
    ensures n <= |s|
    ensures forall k :: 0 <= k < n ==> DigitValue(s[k], base) >= 0
    ensures n < |s| ==> DigitValue(s[n], base) < 0
  {
    if s != [] && DigitValue(s[0], base) >= 0 then 1 + DigitPrefixLength(s[1..], base) else 0
  }

  /** The number a string of digits denotes, most significant digit first. */
  function DigitsValue(s: string, base: nat): int {
    if s == [] then 0
    else DigitsValue(s[..|s| - 1], base) * base + DigitValue(s[|s| - 1], base)
  }

  /** `parseInt(s, radix)`: leading white space, an optional sign, a `0x` prefix when the radix
      is absent, then the longest run of digits; NaN when that run is empty. */
  function ParseInt(s: string, radix: RadixArgument): JsInt {
    var t := TrimStart(s);
    if t != [] && t[0] == '-' then Negate(ParseUnsigned(t[1..], radix))
    else if t != [] && t[0] == '+' then ParseUnsigned(t[1..], radix)
    else ParseUnsigned(t, radix)
  }

  function Negate(x: JsInt): JsInt {
    match x
    case NaN => NaN
    case Int(v) => Int(-v)
  }

  /** `parseInt` after the sign. */
  function ParseUnsigned(body: string, radix: RadixArgument): JsInt {
    if radix == Absent && |body| >= 2 && body[0] == '0' && (body[1] == 'x' || body[1] == 'X')
    then DigitRun(body[2..], 16)
    else DigitRun(body, 10)
  }

  /** The value of the longest prefix of digits of the base, NaN if it is empty. */
  function DigitRun(digits: string, base: nat): JsInt {
    var n := DigitPrefixLength(digits, base);
    if n == 0 then NaN else Int(DigitsValue(digits[..n], base))
  }

  /** The decimal digits of n, as `Number.prototype.toString` writes a safe integer. */
  function NatToString(n: nat): (r: string)
    ensures r != [] && forall k :: 0 <= k < |r| ==> IsDigit(r[k])
    ensures DigitsValue(r, 10) == n
  {
    if n < 10 then ['0' + n as char]
    else
      var r := NatToString(n / 10) + ['0' + (n % 10) as char];
      assert r[..|r| - 1] == NatToString(n / 10);
      r
  }

  /** `${x}` for a JavaScript number that is an integer or NaN. */
  function IntToString(x: JsInt): string {
    match x
    case NaN => "NaN"
    case Int(n) => if n < 0 then "-" + NatToString(-n) else NatToString(n)
  }

  // ---------------------------------------------------------------- lemmas

  /** `parseInt` reads back every integer `${x}` writes, and NaN as NaN, with either radix argument. */
  lemma ParseIntToString(x: JsInt, radix: RadixArgument)
    ensures ParseInt(IntToString(x), radix) == x
  {
    match x
    case NaN =>
      ParseIntNaN(radix);
    case Int(n) =>
      if n < 0 {
        var d := NatToString(-n);
        assert IntToString(x) == "-" + d;
        ParseIntNegative(d, radix);
      } else {
        var d := NatToString(n);
        assert IntToString(x) == d;
        ParseIntDigits(d, radix);
      }
  }

  lemma ParseIntNaN(radix: RadixArgument)
    ensures ParseInt("NaN", radix) == NaN
  {
    var t := "NaN";
    assert !IsSpace(t[0]);
    assert TrimStart(t) == t;
    assert DigitValue(t[0], 10) < 0;
    assert ParseUnsigned(t, radix) == DigitRun(t, 10);
  }

  lemma ParseIntDigits(d: string, radix: RadixArgument)
    requires d != [] && forall k :: 0 <= k < |d| ==> IsDigit(d[k])
    ensures ParseInt(d, radix) == Int(DigitsValue(d, 10))
  {
    assert !IsSpace(d[0]);
    assert TrimStart(d) == d;
    DigitRunAll(d);
  }

  lemma ParseIntNegative(d: string, radix: RadixArgument)
    requires d != [] && forall k :: 0 <= k < |d| ==> IsDigit(d[k])
    ensures ParseInt("-" + d, radix) == Int(-DigitsValue(d, 10))
  {
    var t := "-" + d;
    assert t[1..] == d;
    ParseIntMinus(t, radix);
    DigitRunAll(d);
  }

  lemma ParseIntMinus(t: string, radix: RadixArgument)
    requires t != [] && t[0] == '-'
    ensures ParseInt(t, radix) == Negate(ParseUnsigned(t[1..], radix))
  {
    assert !IsSpace(t[0]);
    assert TrimStart(t) == t;
  }

  /** A string of decimal digits reads as its value whatever the radix argument. */
  lemma DigitRunAll(d: string)
    requires d != [] && forall k :: 0 <= k < |d| ==> IsDigit(d[k])
    ensures forall radix :: ParseUnsigned(d, radix) == Int(DigitsValue(d, 10))
  {
    DigitPrefixAll(d);
    assert d[..|d|] == d;
  }

  lemma {:induction false} DigitPrefixAll(d: string)
    requires forall k :: 0 <= k < |d| ==> IsDigit(d[k])
    ensures DigitPrefixLength(d, 10) == |d|
    decreases |d|
  {
    if d != [] {
      DigitPrefixAll(d[1..]);
    }
  }

  /** Splitting on a literal and joining with it gives the string back. */
  lemma {:induction false} JoinSplitLiteral(s: string, t: string, part: string)
    requires |t| > 0
    ensures Join(SplitFrom(s, Literal(t), part), t) == part + s
    decreases |s|
  {
    if s != [] {
      if t <= s {
        var rest := SplitFrom(s[|t|..], Literal(t), []);
        SplitLiteralMatch(s, t, part);
        JoinCons(part, rest, t);
        JoinSplitLiteral(s[|t|..], t, []);
        LiteralRest(s, t);
      } else {
        SplitLiteralNoMatch(s, t, part);
        JoinSplitLiteral(s[1..], t, part + [s[0]]);
        HeadTail(part, s);
      }
    }
  }

  /** A literal at the front of s is cut off there. */
  lemma SplitLiteralMatch(s: string, t: string, part: string)
    requires |t| > 0 && t <= s
    ensures SplitFrom(s, Literal(t), part) == [part] + SplitFrom(s[|t|..], Literal(t), [])
  {
  }

  /** A character where no separator starts joins the current piece. */
  lemma SplitNoMatch(s: string, sep: Separator, part: string)
    requires s != [] && MatchLength(sep, s) == 0
    ensures SplitFrom(s, sep, part) == SplitFrom(s[1..], sep, part + [s[0]])
  {
  }

  /** A line feed at the front of s ends the current line. */
  lemma LineFeedMatch(s: string, part: string)
    requires s != [] && s[0] == '\n'
    ensures SplitFrom(s, LineBreak, part) == [part] + SplitFrom(s[1..], LineBreak, [])
  {
    assert NewlineLength(s) == 1;
  }

  /** A character other than a line break joins the current line. */
  lemma LineCharNoMatch(s: string, part: string)
    requires s != [] && s[0] != '\n' && s[0] != '\r'
    ensures SplitFrom(s, LineBreak, part) == SplitFrom(s[1..], LineBreak, part + [s[0]])
  {
    assert NewlineLength(s) == 0;
  }

  /** A character where the literal does not start joins the current piece. */
  lemma SplitLiteralNoMatch(s: string, t: string, part: string)
    requires s != [] && !(t <= s)
    ensures SplitFrom(s, Literal(t), part) == SplitFrom(s[1..], Literal(t), part + [s[0]])
  {
  }

  lemma JoinCons(x: string, rest: seq<string>, sep: string)
    requires rest != []
    ensures Join([x] + rest, sep) == x + sep + Join(rest, sep)
  {
    assert ([x] + rest)[1..] == rest;
  }

  lemma LiteralRest(s: string, t: string)
    requires t <= s
    ensures s == t + ([] + s[|t|..])
  {
    assert [] + s[|t|..] == s[|t|..];
  }

  /** Splitting on `\r?\n` and joining with `\n` gives back a string without carriage returns. */
  lemma {:induction false} JoinSplitLines(s: string, part: string)
    requires NoCarriageReturn(s)
    ensures Join(SplitFrom(s, LineBreak, part), "\n") == part + s
    decreases |s|
  {
    if s != [] {
      var t := s[1..];
      assert NoCarriageReturn(t);
      HeadTail(part, s);
      if s[0] == '\n' {
        var rest := SplitFrom(t, LineBreak, []);
        assert SplitFrom(s, LineBreak, part) == [part] + rest by { LineFeedMatch(s, part); }
        assert Join(rest, "\n") == t by {
          JoinSplitLines(t, []);
          assert [] + t == t;
        }
        JoinCons(part, rest, "\n");
      } else {
        assert SplitFrom(s, LineBreak, part) == SplitFrom(t, LineBreak, part + [s[0]]) by {
          LineCharNoMatch(s, part);
        }
        JoinSplitLines(t, part + [s[0]]);
      }
    }
  }

  /** Putting the first character of s back in front of the rest. */
  lemma HeadTail(part: string, s: string)
    requires s != []
    ensures part + [s[0]] + s[1..] == part + s
  {
    assert s == [s[0]] + s[1..];
  }

  lemma ConcatCons(x: string, xs: seq<string>)
    ensures Concat([x] + xs) == x + Concat(xs)
  {
    assert ([x] + xs)[1..] == xs;
  }

  /** Splitting on `/(\s+)/` keeps every character: concatenating the pieces gives s back. */
  lemma {:induction false} ConcatSplitSpaces(s: string, part: string)
    ensures Concat(SplitFrom(s, CapturedSpaceRun, part)) == part + s
    decreases |s|
  {
    if s != [] {
      var n := SpaceRunLength(s);
      if n > 0 {
        var rest := SplitFrom(s[n..], CapturedSpaceRun, []);
        assert SplitFrom(s, CapturedSpaceRun, part) == [part] + ([s[..n]] + rest) by {
          SpaceRunMatch(s, part);
        }
        ConcatCons(part, [s[..n]] + rest);
        ConcatCons(s[..n], rest);
        ConcatSplitSpaces(s[n..], []);
        RunThenRest(part, s, n);
      } else {
        assert SplitFrom(s, CapturedSpaceRun, part) == SplitFrom(s[1..], CapturedSpaceRun, part + [s[0]]);
        ConcatSplitSpaces(s[1..], part + [s[0]]);
        HeadTail(part, s);
      }
    }
  }

  /** A run of white space at the front of s ends the current piece and is kept as a piece. */
  lemma SpaceRunMatch(s: string, part: string)
    requires SpaceRunLength(s) > 0
    ensures var n := SpaceRunLength(s);
            SplitFrom(s, CapturedSpaceRun, part) == [part] + ([s[..n]] + SplitFrom(s[n..], CapturedSpaceRun, []))
  {
    var n := SpaceRunLength(s);
    var rest := SplitFrom(s[n..], CapturedSpaceRun, []);
    assert [part] + [s[..n]] + rest == [part] + ([s[..n]] + rest);
  }

  lemma RunThenRest(part: string, s: string, n: nat)
    requires n <= |s|
    ensures part + (s[..n] + ([] + s[n..])) == part + s
  {
    assert [] + s[n..] == s[n..];
    assert s[..n] + s[n..] == s;
  }

  /** A piece free of the literal's first character is read whole. */
  lemma {:induction false} SplitLiteralPlain(a: string, t: string, rest: string, part: string)
    requires |t| > 0 && forall k :: 0 <= k < |a| ==> a[k] != t[0]
    ensures SplitFrom(a + rest, Literal(t), part) == SplitFrom(rest, Literal(t), part + a)
    decreases |a|
  {
    if a == [] {
      assert a + rest == rest && part + a == part;
    } else {
      assert (a + rest)[0] == a[0];
      assert !(t <= a + rest);
      assert (a + rest)[1..] == a[1..] + rest;
      SplitLiteralPlain(a[1..], t, rest, part + [a[0]]);
      HeadTail(part, a);
    }
  }

  /** Splitting the join of pieces free of the literal's first character gives the pieces back. */
  lemma {:induction false} SplitJoinLiteral(xs: seq<string>, t: string)
    requires |t| > 0 && |xs| >= 1
    requires forall i, k :: 0 <= i < |xs| && 0 <= k < |xs[i]| ==> xs[i][k] != t[0]
    ensures Split(Join(xs, t), Literal(t)) == xs
    decreases |xs|
  {
    assert forall k :: 0 <= k < |xs[0]| ==> xs[0][k] != t[0];
    if |xs| == 1 {
      SplitLiteralPlain(xs[0], t, [], []);
      assert xs[0] + [] == xs[0] && [] + xs[0] == xs[0];
    } else {
      var x, rest := xs[0], xs[1..];
      var tail := Join(rest, t);
      assert xs == [x] + rest;
      assert Join(xs, t) == x + (t + tail) by {
        JoinCons(x, rest, t);
        SeqAssoc(x, t, tail);
      }
      assert SplitFrom(x + (t + tail), Literal(t), []) == SplitFrom(t + tail, Literal(t), x) by {
        SplitLiteralPlain(x, t, t + tail, []);
        assert [] + x == x;
      }
      assert SplitFrom(t + tail, Literal(t), x) == [x] + Split(tail, Literal(t)) by {
        assert (t + tail)[..|t|] == t && (t + tail)[|t|..] == tail;
        SplitLiteralMatch(t + tail, t, x);
      }
      forall i, k | 0 <= i < |rest| && 0 <= k < |rest[i]| ensures rest[i][k] != t[0] {
        assert rest[i] == xs[i + 1];
      }
      SplitJoinLiteral(rest, t);
    }
  }

  /** A `\n` splits a string without carriage returns into the lines before and after it. */
  lemma {:induction false} SplitLinesAppend(a: string, b: string, part: string)
    requires forall k :: 0 <= k < |a| ==> a[k] != '\r'
    ensures SplitFrom(a + "\n" + b, LineBreak, part) == SplitFrom(a, LineBreak, part) + Split(b, LineBreak)
    decreases |a|
  {
    var s := a + "\n" + b;
    if a == [] {
      assert s == "\n" + b && s[1..] == b;
      LineFeedMatch(s, part);
    } else {
      assert s[1..] == a[1..] + "\n" + b;
      if a[0] == '\n' {
        LineFeedMatch(s, part);
        LineFeedMatch(a, part);
        SplitLinesAppend(a[1..], b, []);
        SeqAssoc([part], SplitFrom(a[1..], LineBreak, []), Split(b, LineBreak));
      } else {
        LineCharNoMatch(s, part);
        LineCharNoMatch(a, part);
        SplitLinesAppend(a[1..], b, part + [a[0]]);
      }
    }
  }

  lemma SeqAssoc<T>(a: seq<T>, b: seq<T>, c: seq<T>)
    ensures a + b + c == a + (b + c)
  {
  }

  /** A string without line breaks is one line. */
  lemma {:induction false} SplitLinesSingle(a: string, part: string)
    requires forall k :: 0 <= k < |a| ==> a[k] != '\r' && a[k] != '\n'
    ensures SplitFrom(a, LineBreak, part) == [part + a]
    decreases |a|
  {
    if a == [] {
      assert part + a == part;
    } else {
      SplitLinesSingle(a[1..], part + [a[0]]);
      HeadTail(part, a);
    }
  }

  /** No line that `\r?\n` splitting yields from a string contains `\n`. */
  lemma {:induction false} SplitLinesNoBreak(s: string, part: string)
    requires forall k :: 0 <= k < |part| ==> part[k] != '\n'
    ensures forall i, k :: 0 <= i < |SplitFrom(s, LineBreak, part)| && 0 <= k < |SplitFrom(s, LineBreak, part)[i]|
              ==> SplitFrom(s, LineBreak, part)[i][k] != '\n'
    decreases |s|
  {
    if s != [] {
      var n := NewlineLength(s);
      if n > 0 {
        SplitLinesNoBreak(s[n..], []);
      } else {
        SplitLinesNoBreak(s[1..], part + [s[0]]);
      }
    }
  }

  /** A blank line splits a block-safe string into the blocks before and after it. */
  lemma {:induction false} SplitBlankAppend(a: string, b: string, part: string)
    requires forall k :: 0 <= k < |a| ==> a[k] != '\r'
    requires forall k :: 0 <= k < |a| - 1 ==> !(a[k] == '\n' && a[k + 1] == '\n')
    requires a != [] ==> a[|a| - 1] != '\n'
    ensures SplitFrom(a + "\n\n" + b, BlankLine, part) == [part + a] + Split(b, BlankLine)
    decreases |a|
  {
    var s := a + "\n\n" + b;
    if a == [] {
      BlankLineAtSeparator(b);
      assert s == "\n\n" + b && part + a == part;
    } else {
      assert s[1..] == a[1..] + "\n\n" + b;
      NoBlankLineInside(s, a[0], if |a| >= 2 then a[1] else '\n');
      SplitNoMatch(s, BlankLine, part);
      SplitBlankAppend(a[1..], b, part + [a[0]]);
      HeadTail(part, a);
    }
  }

  lemma BlankLineAtSeparator(b: string)
    ensures SplitFrom("\n\n" + b, BlankLine, []) == [[]] + Split(b, BlankLine)
  {
    var s := "\n\n" + b;
    assert NewlineLength(s) == 1;
    assert s[1..] == "\n" + b;
    assert NewlineLength(s[1..]) == 1;
    assert s[2..] == b;
  }

  /** No blank line starts at a character that is not a line feed followed by a line feed. */
  lemma NoBlankLineInside(s: string, c0: char, c1: char)
    requires |s| >= 2 && s[0] == c0 && s[1] == c1 && c0 != '\r'
    requires c0 == '\n' ==> c1 != '\n' && c1 != '\r'
    ensures MatchLength(BlankLine, s) == 0
  {
    if c0 == '\n' {
      assert NewlineLength(s[1..]) == 0;
    }
  }

  /** A block-safe string is one block. */
  lemma {:induction false} SplitBlankSingle(a: string, part: string)
    requires forall k :: 0 <= k < |a| ==> a[k] != '\r'
    requires forall k :: 0 <= k < |a| - 1 ==> !(a[k] == '\n' && a[k + 1] == '\n')
    requires a != [] ==> a[|a| - 1] != '\n'
    ensures SplitFrom(a, BlankLine, part) == [part + a]
    decreases |a|
  {
    if a == [] {
      assert part + a == part;
    } else {
      if a[0] == '\n' {
        NoBlankLineInside(a, a[0], a[1]);
      }
      SplitBlankSingle(a[1..], part + [a[0]]);
      HeadTail(part, a);
    }
  }

  /** Trimming a trimmed non-empty string with a line feed after it gives the string back. */
  lemma TrimNewline(x: string)
    requires x != [] && Trimmed(x)
    ensures Trim(x + "\n") == x
  {
    var s := x + "\n";
    assert s[0] == x[0];
    assert TrimStart(s) == s;
    assert s[..|s| - 1] == x;
    assert TrimEnd(x) == x;
  }

  /** The first and the last character of a join of non-empty parts. */
  lemma {:induction false} JoinEnds(xs: seq<string>, sep: string)
    requires |xs| >= 1 && forall i :: 0 <= i < |xs| ==> xs[i] != []
    ensures Join(xs, sep) != []
    ensures Join(xs, sep)[0] == xs[0][0]
    ensures Join(xs, sep)[|Join(xs, sep)| - 1] == xs[|xs| - 1][|xs[|xs| - 1]| - 1]
    decreases |xs|
  {
    if |xs| > 1 {
      JoinEnds(xs[1..], sep);
      assert Join(xs, sep) == xs[0] + sep + Join(xs[1..], sep);
    }
  }

  /** Replacing every `\n` by `<br>` is undone by replacing every `<br>` by `\n` when the
      string has no `<` of its own. */
  lemma {:induction false} ReplaceAllBack(s: string)
    requires forall k :: 0 <= k < |s| ==> s[k] != '<'
    ensures ReplaceAll(ReplaceAll(s, "\n", "<br>"), "<br>", "\n") == s
    decreases |s|
  {
    if s != [] {
      ReplaceAllBack(s[1..]);
      var r := ReplaceAll(s[1..], "\n", "<br>");
      if s[0] == '\n' {
        assert ReplaceAll(s, "\n", "<br>") == "<br>" + r;
        assert ("<br>" + r)[4..] == r;
      } else {
        assert ReplaceAll(s, "\n", "<br>") == [s[0]] + r;
        assert ([s[0]] + r)[0] != "<br>"[0];
        assert ([s[0]] + r)[1..] == r;
      }
    }
  }

  /** Replacing every occurrence of a one-character pattern by text without that character
      leaves none. */
  lemma {:induction false} ReplaceAllRemoves(s: string, c: char, rep: string)
    requires forall k :: 0 <= k < |rep| ==> rep[k] != c
    ensures forall k :: 0 <= k < |ReplaceAll(s, [c], rep)| ==> ReplaceAll(s, [c], rep)[k] != c
    decreases |s|
  {
    if s != [] {
      ReplaceAllRemoves(s[1..], c, rep);
    }
  }
}
