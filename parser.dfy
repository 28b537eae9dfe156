/**
 * The list-response parser of the text-generation service: it turns one
 * block of generated text into at most N stripped items.
 *
 * Stage 1 is `re.findall(r"^\s*\d+\s*[\.\)]\s*(.*)", text, re.MULTILINE)`.
 * Because neither a digit nor `.`/`)` is whitespace, the greedy pattern has
 * exactly one way to match at a line start: skip all whitespace (newlines
 * included), take all digits (at least one), skip all whitespace, take one
 * `.` or `)`, skip all whitespace (newlines included), capture up to the next
 * newline. `Scan` runs that match one character at a time, and `FindAll` is
 * the scan over the text; the next attempt starts where a match ended. The
 * one approximation: `\d` is taken to be the ASCII digits.
 */
module ListParser {
  import opened Wrappers
  import opened PyStr

  predicate IsDigit(c: char) {
    '0' <= c <= '9'
  }

  /** Greedy `.*` from position i: up to the next newline or the end. */
  function LineEnd(s: string, i: nat): (j: nat)
    requires i <= |s|
    ensures i <= j <= |s|
    ensures forall k :: i <= k < j ==> s[k] != '\n'
    ensures j < |s| ==> s[j] == '\n'
    decreases |s| - i
  {
    if i < |s| && s[i] != '\n' then LineEnd(s, i + 1) else i
  }

  /** `^` in multi-line mode. */
  predicate AtLineStart(s: string, i: nat)
    requires i <= |s|
  {
    i == 0 || s[i - 1] == '\n'
  }

  datatype Match = Match(capture: string, end: nat)

  /** Where the scan stands in the pattern: in the `\s*` before the digits,
      in the digits, in the `\s*` between the digits and the `.` or `)`, or
      in the `\s*` after it. */
  datatype Phase = Lead | Digits | Gap | Mark

  /** The greedy match of the rest of the pattern from position k in phase
      ph: the captured group and the position where the match ends. */
  function Scan(s: string, k: nat, ph: Phase): (m: Option<Match>)
    requires k <= |s|
    ensures m.Some? ==> k <= m.value.end <= |s|
    ensures m.Some? && ph != Mark ==> k < m.value.end
    decreases |s| - k
  {
    if ph == Mark then
      if k < |s| && IsSpace(s[k]) then Scan(s, k + 1, Mark)
      else var e := LineEnd(s, k); Some(Match(s[k..e], e))
    else if k == |s| then None
    else if IsSpace(s[k]) then Scan(s, k + 1, if ph == Digits then Gap else ph)
    else if IsDigit(s[k]) && ph != Gap then Scan(s, k + 1, Digits)
    else if (s[k] == '.' || s[k] == ')') && ph != Lead then Scan(s, k + 1, Mark)
    else None
  }

  /** One attempt of the pattern at position i. */
  function MatchAt(s: string, i: nat): (m: Option<Match>)
    requires i <= |s|
    ensures m.Some? ==> i < m.value.end <= |s|
  {
    if !AtLineStart(s, i) then None else Scan(s, i, Lead)
  }

  /** `pattern.findall(s[pos:])` with `^` still anchored to the lines of s:
      the captures in text order. */
  function FindAll(s: string, pos: nat): (caps: seq<string>)
    requires pos <= |s|
    decreases |s| - pos
  {
    if pos == |s| then []
    else
      match MatchAt(s, pos)
      case Some(m) => [m.capture] + FindAll(s, m.end)
      case None => FindAll(s, pos + 1)
  }

  /** A capture runs to the end of its line: it holds no newline. */
  lemma {:induction false} ScanOneLine(s: string, k: nat, ph: Phase)
    requires k <= |s| && Scan(s, k, ph).Some?
    ensures '\n' !in Scan(s, k, ph).value.capture
    decreases |s| - k
  {
    if ph == Mark && !(k < |s| && IsSpace(s[k])) {
      var e := LineEnd(s, k);
      forall j | 0 <= j < e - k ensures s[k..e][j] != '\n' {
        assert s[k..e][j] == s[k + j];
      }
    } else if k < |s| {
      var next := if ph == Mark then Mark
                  else if IsSpace(s[k]) then (if ph == Digits then Gap else ph)
                  else if IsDigit(s[k]) then Digits
                  else Mark;
      ScanOneLine(s, k + 1, next);
    }
  }

  /** Every capture lies within one line: none holds a newline. */
  lemma {:induction false} CapturesOneLine(s: string, pos: nat)
    requires pos <= |s|
    ensures var caps := FindAll(s, pos);
            forall j, k :: 0 <= j < |caps| && 0 <= k < |caps[j]| ==> caps[j][k] != '\n'
    decreases |s| - pos
  {
    if pos < |s| {
      match MatchAt(s, pos)
      case Some(m) =>
        ScanOneLine(s, pos, Lead);
        CapturesOneLine(s, m.end);
        var caps := FindAll(s, pos);
        assert caps == [m.capture] + FindAll(s, m.end);
        forall j, k | 0 <= j < |caps| && 0 <= k < |caps[j]| ensures caps[j][k] != '\n' {
          if j > 0 {
            assert caps[j] == FindAll(s, m.end)[j - 1];
          } else {
            assert caps[j][k] in m.capture;
          }
        }
      case None =>
        FindAllNoMatch(s, pos);
        CapturesOneLine(s, pos + 1);
    }
  }

  /** Without a digit ahead, the scan in its first phase fails. */
  lemma {:induction false} LeadNeedsDigit(s: string, k: nat)
    requires k <= |s|
    requires forall j :: k <= j < |s| ==> !IsDigit(s[j])
    ensures Scan(s, k, Lead) == None
    decreases |s| - k
  {
    if k < |s| && IsSpace(s[k]) {
      LeadNeedsDigit(s, k + 1);
    }
  }

  /** No capture without a digit: a text without digits has none. */
  lemma {:induction false} FindAllNeedsDigit(s: string, pos: nat)
    requires pos <= |s|
    requires forall k :: pos <= k < |s| ==> !IsDigit(s[k])
    ensures FindAll(s, pos) == []
    decreases |s| - pos
  {
    if pos < |s| {
      LeadNeedsDigit(s, pos);
      assert MatchAt(s, pos).None?;
      FindAllNeedsDigit(s, pos + 1);
    }
  }

  function StripAll(xs: seq<string>): (r: seq<string>)
    ensures |r| == |xs|
    ensures forall i :: 0 <= i < |r| ==> r[i] == Strip(xs[i]) && IsStripped(r[i])
  {
    if |xs| == 0 then [] else [Strip(xs[0])] + StripAll(xs[1..])
  }

  /** Stage 1: `[match.strip() for match in pattern.findall(text)]`, one
      stripped item per capture, in the captures' order. Empty captures (a
      bare "3.") are kept as "". */
  function NumberedItems(text: string): (r: seq<string>)
    ensures |r| == |FindAll(text, 0)|
    ensures forall i :: 0 <= i < |r| ==> r[i] == Strip(FindAll(text, 0)[i]) && IsStripped(r[i])
  {
    StripAll(FindAll(text, 0))
  }

  /** `[line.strip() for line in lines if line.strip()]`. */
  function NonBlankLines(lines: seq<string>): (r: seq<string>)
    ensures |r| <= |lines|
    ensures forall i :: 0 <= i < |r| ==> IsStripped(r[i]) && |r[i]| > 0
  {
    if |lines| == 0 then []
    else
      var head := Strip(lines[0]);
      var rest := NonBlankLines(lines[1..]);
      if |head| > 0 then [head] + rest else rest
  }

  /** The non-blank filter keeps exactly the non-empty stripped lines. */
  lemma {:induction false} NonBlankLinesMembers(lines: seq<string>)
    ensures forall x :: x in NonBlankLines(lines) <==> x in StripAll(lines) && |x| > 0
  {
    if |lines| > 0 {
      NonBlankLinesMembers(lines[1..]);
      assert StripAll(lines) == [Strip(lines[0])] + StripAll(lines[1..]);
    }
  }

  /** `[item for item in items if len(item.split()) > 3]`. */
  function MoreThanThreeWords(items: seq<string>): (r: seq<string>)
    ensures |r| <= |items|
    ensures forall i :: 0 <= i < |r| ==> WordCount(r[i]) > 3
    ensures forall i :: 0 <= i < |r| ==> r[i] in items
  {
    if |items| == 0 then []
    else if WordCount(items[0]) > 3 then [items[0]] + MoreThanThreeWords(items[1..])
    else MoreThanThreeWords(items[1..])
  }

  /** The word-count filter keeps exactly the items of more than three words. */
  lemma {:induction false} MoreThanThreeWordsMembers(items: seq<string>)
    ensures forall x :: x in MoreThanThreeWords(items) <==> x in items && WordCount(x) > 3
  {
    if |items| > 0 {
      MoreThanThreeWordsMembers(items[1..]);
      assert items == [items[0]] + items[1..];
    }
  }

  /** Both filters keep order: filtering a concatenation filters each part. */
  lemma {:induction false} NonBlankLinesConcat(a: seq<string>, b: seq<string>)
    ensures NonBlankLines(a + b) == NonBlankLines(a) + NonBlankLines(b)
  {
    if |a| > 0 {
      assert (a + b)[1..] == a[1..] + b;
      NonBlankLinesConcat(a[1..], b);
    } else {
      assert a + b == b;
    }
  }

  lemma {:induction false} MoreThanThreeWordsConcat(a: seq<string>, b: seq<string>)
    ensures MoreThanThreeWords(a + b) == MoreThanThreeWords(a) + MoreThanThreeWords(b)
  {
    if |a| > 0 {
      assert (a + b)[1..] == a[1..] + b;
      MoreThanThreeWordsConcat(a[1..], b);
    } else {
      assert a + b == b;
    }
  }

  /** Stage 2: the non-empty stripped lines of more than three words. */
  function LongLines(text: string): (r: seq<string>)
    ensures forall i :: 0 <= i < |r| ==> IsStripped(r[i]) && |r[i]| > 0 && WordCount(r[i]) > 3
  {
    MoreThanThreeWords(NonBlankLines(SplitLines(text)))
  }

  /** Stage 2 keeps exactly the lines that strip to something of more than
      three words, stripped. */
  lemma LongLinesMembers(text: string)
    ensures forall x :: x in LongLines(text) <==>
              x in StripAll(SplitLines(text)) && |x| > 0 && WordCount(x) > 3
  {
    NonBlankLinesMembers(SplitLines(text));
    MoreThanThreeWordsMembers(NonBlankLines(SplitLines(text)));
  }

  /** Stage 2 keeps the text's line order: the long lines of two blocks
      joined by a newline are those of the first, then those of the second. */
  lemma LongLinesJoin(t1: string, t2: string)
    ensures LongLines(t1 + "\n" + t2) == LongLines(t1) + LongLines(t2)
  {
    SplitLinesJoinTexts(t1, t2);
    NonBlankLinesConcat(SplitLines(t1), SplitLines(t2));
    MoreThanThreeWordsConcat(NonBlankLines(SplitLines(t1)), NonBlankLines(SplitLines(t2)));
  }

  /** `parse_gemini_list_response(text_response, num_variations)`. */
  function ParseListResponse(text: string, n: int): (r: seq<string>)
    // Length bound: never more than n items.
    ensures n >= 0 ==> |r| <= n
    // Every item is stripped, whichever stage produced it.
    ensures forall i :: 0 <= i < |r| ==> IsStripped(r[i])
    // Regex stage: enough captures means the first n captures, in text order.
    ensures n >= 1 && |NumberedItems(text)| >= n ==> r == NumberedItems(text)[..n]
    // Fallback stage: fewer captures are all discarded in favour of the long
    // lines, or else the whole stripped block.
    ensures |NumberedItems(text)| < n ==>
              r == (if |LongLines(text)| > 0 then Take(LongLines(text), n)
                    else if |Strip(text)| > 0 then Take([Strip(text)], n)
                    else [])
  {
    var numbered := NumberedItems(text);
    var items := if |numbered| == 0 || |numbered| < n then LongLines(text) else numbered;
    // The source has two branches here (`num_variations == 1` and otherwise)
    // that append the same value.
    var items := if |items| == 0 && |Strip(text)| > 0 then [Strip(text)] else items;
    assert forall i :: 0 <= i < |items| ==> IsStripped(items[i]);
    if |items| > 0 then Take(items, n) else []
  }

  /** For at least one requested item, the result is empty exactly when the
      text is blank. */
  lemma ParseEmptyIffBlank(text: string, n: int)
    requires n >= 1
    ensures |ParseListResponse(text, n)| == 0 <==> |Strip(text)| == 0
  {
    StripBlank(text);
    if |Strip(text)| == 0 {
      FindAllNeedsDigit(text, 0);
      SplitLinesAllSpace(text);
      BlankLinesDropped(SplitLines(text));
    }
  }

  lemma {:induction false} BlankLinesDropped(lines: seq<string>)
    requires forall k :: 0 <= k < |lines| ==> AllSpace(lines[k])
    ensures NonBlankLines(lines) == []
  {
    if |lines| > 0 {
      StripBlank(lines[0]);
      BlankLinesDropped(lines[1..]);
    }
  }

  lemma {:induction false} LineEndAt(s: string, i: nat, j: nat)
    requires i <= j <= |s|
    requires forall k :: i <= k < j ==> s[k] != '\n'
    requires j == |s| || s[j] == '\n'
    ensures LineEnd(s, i) == j
    decreases j - i
  {
    if i < j {
      LineEndAt(s, i + 1, j);
    }
  }

  // ----- the pattern, stated independently of the scan -----

  /** The pattern's prefix `^\s*\d+\s*[.)]` matches at i, with the digits
      in [a, b) and the `.` or `)` at c. */
  predicate PatternPrefixAt(s: string, i: nat, a: nat, b: nat, c: nat) {
    i <= a < b <= c < |s| && AtLineStart(s, i)
    && (forall k :: i <= k < a ==> IsSpace(s[k]))
    && (forall k :: a <= k < b ==> IsDigit(s[k]))
    && (forall k :: b <= k < c ==> IsSpace(s[k]))
    && (s[c] == '.' || s[c] == ')')
  }

  lemma {:induction false} LeadEndAt(s: string, i: nat, j: nat)
    requires i <= j <= |s|
    requires forall k :: i <= k < j ==> IsSpace(s[k])
    requires j < |s| ==> !IsSpace(s[j])
    ensures LeadEnd(s, i) == j
    decreases j - i
  {
    if i < j {
      LeadEndAt(s, i + 1, j);
    }
  }

  /** A `\s*` phase passes over whitespace. */
  lemma {:induction false} ScanSpaces(s: string, k: nat, j: nat, ph: Phase)
    requires k <= j <= |s| && ph != Digits
    requires forall i :: k <= i < j ==> IsSpace(s[i])
    ensures Scan(s, k, ph) == Scan(s, j, ph)
    decreases j - k
  {
    if k < j {
      ScanSpaces(s, k + 1, j, ph);
    }
  }

  /** The digits phase passes over digits. */
  lemma {:induction false} ScanDigits(s: string, k: nat, j: nat)
    requires k <= j <= |s|
    requires forall i :: k <= i < j ==> IsDigit(s[i])
    ensures Scan(s, k, Digits) == Scan(s, j, Digits)
    decreases j - k
  {
    if k < j {
      ScanDigits(s, k + 1, j);
    }
  }

  /** After the `.` or `)`, the capture starts where `lstrip` would and runs
      to the end of the line. */
  lemma ScanMark(s: string, k: nat)
    requires k <= |s|
    ensures var d := LeadEnd(s, k);
            Scan(s, k, Mark) == Some(Match(s[d..LineEnd(s, d)], LineEnd(s, d)))
  {
    ScanSpaces(s, k, LeadEnd(s, k), Mark);
  }

  /** From the first digit on, the digits, the whitespace and the `.` or
      `)` lead to the phase after it. */
  lemma ScanToMark(s: string, a: nat, b: nat, c: nat)
    requires a < b <= c < |s| && (s[c] == '.' || s[c] == ')')
    requires (forall k :: a <= k < b ==> IsDigit(s[k])) && (forall k :: b <= k < c ==> IsSpace(s[k]))
    ensures Scan(s, a, Lead) == Scan(s, c + 1, Mark)
  {
    assert Scan(s, a, Lead) == Scan(s, a + 1, Digits);
    ScanDigits(s, a + 1, b);
    if b < c {
      assert Scan(s, b, Digits) == Scan(s, b + 1, Gap);
      ScanSpaces(s, b + 1, c, Gap);
    }
  }

  /** Where the pattern's prefix matches, the scan's attempt succeeds with
      the capture running from the end of the whitespace after the `.` or
      `)` to the end of that line. */
  lemma MatchAtFromPattern(s: string, i: nat, a: nat, b: nat, c: nat)
    requires PatternPrefixAt(s, i, a, b, c)
    ensures var d := LeadEnd(s, c + 1);
            MatchAt(s, i) == Some(Match(s[d..LineEnd(s, d)], LineEnd(s, d)))
  {
    ScanSpaces(s, i, a, Lead);
    ScanToMark(s, a, b, c);
    ScanMark(s, c + 1);
  }

  /** Where the gap phase succeeds: whitespace, then the `.` or `)` at c. */
  lemma {:induction false} GapWitness(s: string, k: nat) returns (c: nat)
    requires k <= |s| && Scan(s, k, Gap).Some?
    ensures k <= c < |s| && (forall i :: k <= i < c ==> IsSpace(s[i])) && (s[c] == '.' || s[c] == ')')
    decreases |s| - k
  {
    if IsSpace(s[k]) {
      c := GapWitness(s, k + 1);
    } else {
      c := k;
    }
  }

  /** Where the digits phase succeeds: digits up to b, whitespace, then the
      `.` or `)` at c. */
  lemma {:induction false} DigitsWitness(s: string, k: nat) returns (b: nat, c: nat)
    requires k <= |s| && Scan(s, k, Digits).Some?
    ensures k <= b <= c < |s| && (s[c] == '.' || s[c] == ')')
    ensures (forall i :: k <= i < b ==> IsDigit(s[i])) && (forall i :: b <= i < c ==> IsSpace(s[i]))
    decreases |s| - k
  {
    if IsSpace(s[k]) {
      b := k;
      c := GapWitness(s, k + 1);
    } else if IsDigit(s[k]) {
      b, c := DigitsWitness(s, k + 1);
    } else {
      b, c := k, k;
    }
  }

  /** Where the first phase succeeds: the pattern's prefix, in some way. */
  lemma {:induction false} LeadWitness(s: string, k: nat) returns (a: nat, b: nat, c: nat)
    requires k <= |s| && Scan(s, k, Lead).Some?
    ensures k <= a < b <= c < |s| && (s[c] == '.' || s[c] == ')')
    ensures forall i :: k <= i < a ==> IsSpace(s[i])
    ensures (forall i :: a <= i < b ==> IsDigit(s[i])) && (forall i :: b <= i < c ==> IsSpace(s[i]))
    decreases |s| - k
  {
    if IsSpace(s[k]) {
      a, b, c := LeadWitness(s, k + 1);
    } else {
      a := k;
      b, c := DigitsWitness(s, k + 1);
    }
  }

  /** The scan's attempt at i succeeds exactly when the pattern's prefix
      matches there, in whatever way; every way fixes the same capture. */
  lemma MatchAtPattern(s: string, i: nat)
    requires i <= |s|
    ensures MatchAt(s, i).Some? <==> exists a: nat, b: nat, c: nat :: PatternPrefixAt(s, i, a, b, c)
    ensures forall a: nat, b: nat, c: nat :: PatternPrefixAt(s, i, a, b, c) ==>
              var d := LeadEnd(s, c + 1);
              MatchAt(s, i) == Some(Match(s[d..LineEnd(s, d)], LineEnd(s, d)))
  {
    if MatchAt(s, i).Some? {
      var a, b, c := LeadWitness(s, i);
      assert PatternPrefixAt(s, i, a, b, c);
    }
    forall a: nat, b: nat, c: nat | PatternPrefixAt(s, i, a, b, c)
      ensures var d := LeadEnd(s, c + 1);
              MatchAt(s, i) == Some(Match(s[d..LineEnd(s, d)], LineEnd(s, d)))
    {
      MatchAtFromPattern(s, i, a, b, c);
    }
  }

  lemma FindAllMatch(s: string, pos: nat, m: Match)
    requires pos < |s| && MatchAt(s, pos) == Some(m)
    ensures FindAll(s, pos) == [m.capture] + FindAll(s, m.end)
  {
  }

  lemma FindAllNoMatch(s: string, pos: nat)
    requires pos < |s| && MatchAt(s, pos) == None
    ensures FindAll(s, pos) == FindAll(s, pos + 1)
  {
  }

  // ----- numbered lines -----

  /** A list label: one or more digits. */
  predicate IsLabel(lab: string) {
    |lab| > 0 && forall k :: 0 <= k < |lab| ==> IsDigit(lab[k])
  }

  /** Item content: one line that does not start with whitespace. */
  predicate IsContent(c: string) {
    |c| > 0 && !IsSpace(c[0]) && '\n' !in c
  }

  /** The lines "<label>. <content>", one per label and content in turn,
      joined by newlines. */
  function NumberedText(labs: seq<string>, cs: seq<string>): string
    requires |labs| == |cs| && |cs| >= 1
  {
    if |cs| == 1 then labs[0] + ". " + cs[0]
    else labs[0] + ". " + cs[0] + "\n" + NumberedText(labs[1..], cs[1..])
  }

  predicate WellFormed(labs: seq<string>, cs: seq<string>) {
    |labs| == |cs| && forall i :: 0 <= i < |cs| ==> IsLabel(labs[i]) && IsContent(cs[i])
  }

  /** A label and a `.` at a line start: the pattern's prefix, with no
      whitespace around the digits. */
  lemma LabelPrefix(s: string, p: nat, lab: string)
    requires IsLabel(lab) && p + |lab| < |s| && AtLineStart(s, p)
    requires s[p..p + |lab|] == lab && s[p + |lab|] == '.'
    ensures PatternPrefixAt(s, p, p, p + |lab|, p + |lab|)
  {
    assert forall k :: p <= k < p + |lab| ==> s[k] == lab[k - p];
  }

  /** A space, then content c that ends its line at e: the capture after
      the `.` starts at the content and ends at e. */
  lemma ContentAfterMark(s: string, b: nat, c: string, e: nat)
    requires IsContent(c) && e == b + 2 + |c| && e <= |s|
    requires s[b + 1] == ' ' && s[b + 2..e] == c && (e == |s| || s[e] == '\n')
    ensures LeadEnd(s, b + 1) == b + 2 && LineEnd(s, b + 2) == e
  {
    assert s[b + 2] == c[0];
    LeadEndAt(s, b + 1, b + 2);
    forall k | b + 2 <= k < e ensures s[k] != '\n' {
      assert s[k] == c[k - b - 2];
    }
    LineEndAt(s, b + 2, e);
  }

  /** A numbered line at a line start of s, ended by a newline or by the
      end of s, is one match capturing its content. */
  lemma MatchNumberedLine(s: string, p: nat, lab: string, c: string)
    requires IsLabel(lab) && IsContent(c)
    requires var e := p + |lab| + 2 + |c|;
             e <= |s| && AtLineStart(s, p) && s[p..p + |lab|] == lab
             && s[p + |lab|] == '.' && s[p + |lab| + 1] == ' '
             && s[p + |lab| + 2..e] == c && (e == |s| || s[e] == '\n')
    ensures MatchAt(s, p) == Some(Match(c, p + |lab| + 2 + |c|))
  {
    var b := p + |lab|;
    LabelPrefix(s, p, lab);
    ContentAfterMark(s, b, c, b + 2 + |c|);
    MatchAtFromPattern(s, p, p, b, b);
  }

  /** No attempt succeeds in the middle of a line. */
  lemma MidLineNoMatch(s: string, e: nat)
    requires 0 < e <= |s| && s[e - 1] != '\n'
    ensures MatchAt(s, e) == None
  {
  }

  /** A bare label "<label>." that ends s: the attempt captures the empty string. */
  lemma BareLabelMatch(s: string, p: nat, lab: string)
    requires IsLabel(lab)
    requires p <= |s| && AtLineStart(s, p) && s[p..] == lab + "."
    ensures MatchAt(s, p) == Some(Match("", |s|))
  {
    var b := p + |lab|;
    assert forall k :: p <= k < b ==> s[k] == s[p..][k - p];
    assert s[b] == s[p..][|lab|] && b + 1 == |s|;
    assert PatternPrefixAt(s, p, p, b, b);
    MatchAtFromPattern(s, p, p, b, b);
    assert s[|s|..|s|] == "";
  }

  /** What follows the numbered lines: nothing, or a newline and the bare
      label lab. */
  function Tail(bare: bool, lab: string): string {
    if bare then "\n" + (lab + ".") else ""
  }

  /** The line "<lab>. <c>" sits in s from p on. */
  predicate LineAt(s: string, p: nat, lab: string, c: string) {
    p + |lab| + 2 + |c| <= |s| && s[p..p + |lab| + 2 + |c|] == lab + ". " + c
  }

  /** A numbered line at a line start of s: the attempt captures its content
      and ends where the line ends. */
  lemma LineMatch(s: string, p: nat, lab: string, c: string, e: nat)
    requires IsLabel(lab) && IsContent(c) && e == p + |lab| + 2 + |c|
    requires p <= |s| && AtLineStart(s, p) && LineAt(s, p, lab, c) && (e == |s| || s[e] == '\n')
    ensures MatchAt(s, p) == Some(Match(c, e)) && s[e - 1] != '\n'
  {
    var t := s[p..e];
    assert t[..|lab|] == lab && t[|lab|] == '.' && t[|lab| + 1] == ' ';
    assert t[|lab| + 2..] == c;
    assert s[p..p + |lab|] == t[..|lab|];
    assert s[p + |lab| + 2..e] == t[|lab| + 2..];
    assert s[e - 1] == t[|t| - 1] == c[|c| - 1];
    MatchNumberedLine(s, p, lab, c);
  }

  /** One line's match, the newline's miss, then what follows. */
  lemma ChainStep(s: string, p: nat, c: string, e: nat, more: seq<string>)
    requires p < e < |s| && MatchAt(s, p) == Some(Match(c, e)) && MatchAt(s, e) == None
    requires FindAll(s, e + 1) == more
    ensures FindAll(s, p) == [c] + more
  {
    FindAllMatch(s, p, Match(c, e));
    FindAllNoMatch(s, e);
  }

  lemma AfterNewline(s: string, e: nat, more: string)
    requires e <= |s| && s[e..] == "\n" + more
    ensures e < |s| && s[e] == '\n' && s[e + 1..] == more
  {
    assert s[e] == s[e..][0] && s[e + 1..] == s[e..][1..];
  }

  /** Where "<lab>. <c>" and what follows sit when it starts s[p..]. */
  lemma LineLayout(s: string, p: nat, lab: string, c: string, rest: string)
    requires p <= |s| && s[p..] == lab + ". " + c + rest
    ensures LineAt(s, p, lab, c) && s[p + |lab| + 2 + |c|..] == rest
  {
    var t := s[p..];
    var e := |lab| + 2 + |c|;
    assert t[..e] == lab + ". " + c && t[e..] == rest;
    assert s[p..p + e] == t[..e];
    assert s[p + e..] == t[e..];
  }

  /** A numbered line followed by a newline and more text, at a line start:
      the attempt there captures the content, the one at the newline fails,
      and the more text starts the next line. */
  lemma LineThenMore(s: string, p: nat, lab: string, c: string, e: nat, more: string)
    requires IsLabel(lab) && IsContent(c) && e == p + |lab| + 2 + |c|
    requires p <= |s| && AtLineStart(s, p) && s[p..] == lab + ". " + c + ("\n" + more)
    ensures e < |s| && MatchAt(s, p) == Some(Match(c, e)) && MatchAt(s, e) == None
    ensures s[e] == '\n' && s[e + 1..] == more
  {
    LineLayout(s, p, lab, c, "\n" + more);
    AfterNewline(s, e, more);
    LineMatch(s, p, lab, c, e);
    MidLineNoMatch(s, e);
  }

  /** A numbered line that ends s: the attempt captures the content and
      ends at the end of s. */
  lemma LastLineMatches(s: string, p: nat, lab: string, c: string)
    requires IsLabel(lab) && IsContent(c)
    requires p <= |s| && AtLineStart(s, p) && s[p..] == lab + ". " + c
    ensures p < |s| && MatchAt(s, p) == Some(Match(c, |s|))
  {
    assert s[p..p + |lab| + 2 + |c|] == s[p..];
    LineMatch(s, p, lab, c, |s|);
  }

  /** A numbered line, a newline and a bare label that end s: the three
      attempts that decide the captures. */
  lemma BareLineMatches(s: string, p: nat, lab: string, c: string, e: nat, lab2: string)
    requires IsLabel(lab) && IsContent(c) && e == p + |lab| + 2 + |c| && IsLabel(lab2)
    requires p <= |s| && AtLineStart(s, p) && s[p..] == lab + ". " + c + Tail(true, lab2)
    ensures p < e < |s| && MatchAt(s, p) == Some(Match(c, e)) && MatchAt(s, e) == None
    ensures MatchAt(s, e + 1) == Some(Match("", |s|))
  {
    LineThenMore(s, p, lab, c, e, lab2 + ".");
    BareLabelMatch(s, e + 1, lab2);
  }

  /** A last line matched up to the end of s: its content alone. */
  lemma LastChain(s: string, p: nat, c: string)
    requires p < |s| && MatchAt(s, p) == Some(Match(c, |s|))
    ensures FindAll(s, p) == [c]
  {
    FindAllMatch(s, p, Match(c, |s|));
  }

  /** A last line, its newline, then a bare label: its content, then "". */
  lemma BareChain(s: string, p: nat, c: string, e: nat)
    requires p < e < |s| && MatchAt(s, p) == Some(Match(c, e)) && MatchAt(s, e) == None
    requires MatchAt(s, e + 1) == Some(Match("", |s|))
    ensures FindAll(s, p) == [c, ""]
  {
    FindAllMatch(s, e + 1, Match("", |s|));
    ChainStep(s, p, c, e, [""]);
  }

  /** The first line of numbered text, then the rest. */
  lemma NumberedTextCons(labs: seq<string>, cs: seq<string>, tail: string)
    requires |labs| == |cs| && |cs| > 1
    ensures NumberedText(labs, cs) + tail
            == labs[0] + ". " + cs[0] + ("\n" + (NumberedText(labs[1..], cs[1..]) + tail))
  {
  }

  lemma WellFormedTail(labs: seq<string>, cs: seq<string>)
    requires |cs| >= 1 && WellFormed(labs, cs)
    ensures WellFormed(labs[1..], cs[1..]) && IsLabel(labs[0]) && IsContent(cs[0])
  {
    assert forall i :: 0 <= i < |cs| - 1 ==> labs[1..][i] == labs[i + 1] && cs[1..][i] == cs[i + 1];
  }

  /** Numbered lines with labels labs and contents cs, then the tail, run
      from the line start p of s to its end. */
  predicate TextAt(s: string, p: nat, labs: seq<string>, cs: seq<string>, bare: bool, lab2: string) {
    |cs| >= 1 && WellFormed(labs, cs) && (bare ==> IsLabel(lab2))
    && p <= |s| && AtLineStart(s, p) && s[p..] == NumberedText(labs, cs) + Tail(bare, lab2)
  }

  /** The first of several numbered lines: the attempts at its start and at
      its newline, and the rest of the lines from the next line start. */
  lemma FirstLine(s: string, p: nat, labs: seq<string>, cs: seq<string>, bare: bool, lab2: string, e: nat)
    requires TextAt(s, p, labs, cs, bare, lab2) && |cs| > 1 && e == p + |labs[0]| + 2 + |cs[0]|
    ensures p < e < |s| && MatchAt(s, p) == Some(Match(cs[0], e)) && MatchAt(s, e) == None
    ensures TextAt(s, e + 1, labs[1..], cs[1..], bare, lab2)
  {
    var tail := Tail(bare, lab2);
    WellFormedTail(labs, cs);
    NumberedTextCons(labs, cs, tail);
    LineThenMore(s, p, labs[0], cs[0], e, NumberedText(labs[1..], cs[1..]) + tail);
  }

  /** A last numbered line that ends s: its content alone. */
  lemma LastLineCaptured(s: string, p: nat, lab: string, c: string)
    requires IsLabel(lab) && IsContent(c)
    requires p <= |s| && AtLineStart(s, p) && s[p..] == lab + ". " + c
    ensures FindAll(s, p) == [c]
  {
    LastLineMatches(s, p, lab, c);
    LastChain(s, p, c);
  }

  /** A last numbered line, a newline and a bare label that end s: its
      content, then "". */
  lemma BareLineCaptured(s: string, p: nat, lab: string, c: string, lab2: string)
    requires IsLabel(lab) && IsContent(c) && IsLabel(lab2)
    requires p <= |s| && AtLineStart(s, p) && s[p..] == lab + ". " + c + Tail(true, lab2)
    ensures FindAll(s, p) == [c, ""]
  {
    BareLineMatches(s, p, lab, c, p + |lab| + 2 + |c|, lab2);
    BareChain(s, p, c, p + |lab| + 2 + |c|);
  }

  /** The only numbered line, then the tail: its content, then "" for a
      bare label. */
  lemma OnlyLineCaptured(s: string, p: nat, labs: seq<string>, cs: seq<string>, bare: bool, lab2: string)
    requires TextAt(s, p, labs, cs, bare, lab2) && |cs| == 1
    ensures FindAll(s, p) == cs + (if bare then [""] else [])
  {
    OnlyLine(labs, cs, Tail(bare, lab2));
    if bare {
      BareLineCaptured(s, p, labs[0], cs[0], lab2);
    } else {
      assert labs[0] + ". " + cs[0] + Tail(bare, lab2) == labs[0] + ". " + cs[0];
      LastLineCaptured(s, p, labs[0], cs[0]);
    }
  }

  /** The only numbered line: its label and content, then the tail. */
  lemma OnlyLine(labs: seq<string>, cs: seq<string>, tail: string)
    requires |cs| == 1 && WellFormed(labs, cs)
    ensures NumberedText(labs, cs) + tail == labs[0] + ". " + cs[0] + tail
    ensures IsLabel(labs[0]) && IsContent(cs[0]) && cs == [cs[0]]
  {
  }

  lemma ConsAppend(cs: seq<string>, last: seq<string>)
    requires |cs| >= 1
    ensures cs + last == [cs[0]] + (cs[1..] + last)
  {
    assert cs == [cs[0]] + cs[1..];
  }

  /** Numbered lines and a tail, from a line start p of s to its end, yield
      their contents in order, then "" for a bare label. */
  lemma {:induction false} TextCaptured(s: string, p: nat, labs: seq<string>, cs: seq<string>, bare: bool, lab2: string)
    requires TextAt(s, p, labs, cs, bare, lab2)
    ensures FindAll(s, p) == cs + (if bare then [""] else [])
    decreases |cs|
  {
    var last := if bare then [""] else [];
    if |cs| > 1 {
      var e := p + |labs[0]| + 2 + |cs[0]|;
      FirstLine(s, p, labs, cs, bare, lab2, e);
      TextCaptured(s, e + 1, labs[1..], cs[1..], bare, lab2);
      ChainStep(s, p, cs[0], e, cs[1..] + last);
      ConsAppend(cs, last);
    } else {
      OnlyLineCaptured(s, p, labs, cs, bare, lab2);
    }
  }

  /** Numbered lines yield exactly their contents, in order. */
  lemma NumberedLinesCaptured(labs: seq<string>, cs: seq<string>)
    requires |cs| >= 1 && WellFormed(labs, cs)
    ensures FindAll(NumberedText(labs, cs), 0) == cs
  {
    var s := NumberedText(labs, cs);
    assert s[0..] == s + Tail(false, "");
    TextCaptured(s, 0, labs, cs, false, "");
  }

  /** Numbered lines followed by a bare label: their contents, then "". */
  lemma TrailingBareLabel(labs: seq<string>, cs: seq<string>, lab: string)
    requires |cs| >= 1 && WellFormed(labs, cs) && IsLabel(lab)
    ensures FindAll(NumberedText(labs, cs) + "\n" + lab + ".", 0) == cs + [""]
  {
    var s := NumberedText(labs, cs) + "\n" + lab + ".";
    assert s[0..] == NumberedText(labs, cs) + Tail(true, lab);
    TextCaptured(s, 0, labs, cs, true, lab);
  }

  /** Exactly n captures, asked for n: the stripped captures. */
  lemma RegexStageExact(text: string, n: int)
    requires n >= 1 && |NumberedItems(text)| == n
    ensures ParseListResponse(text, n) == NumberedItems(text)
  {
    assert NumberedItems(text)[..n] == NumberedItems(text);
  }

  /** Stripping captures already stripped leaves them as they are. */
  lemma StrippedCaptures(text: string, cs: seq<string>)
    requires FindAll(text, 0) == cs && forall i :: 0 <= i < |cs| ==> IsStripped(cs[i])
    ensures NumberedItems(text) == cs
  {
    forall i | 0 <= i < |cs| ensures Strip(cs[i]) == cs[i] {
      StrippedIsFixpoint(cs[i]);
    }
  }

  /** Captures that are already stripped, asked for as many as there are:
      the parser returns them. */
  lemma StrippedParse(text: string, cs: seq<string>)
    requires |cs| >= 1 && FindAll(text, 0) == cs
    requires forall i :: 0 <= i < |cs| ==> IsStripped(cs[i])
    ensures ParseListResponse(text, |cs|) == cs
  {
    StrippedCaptures(text, cs);
    RegexStageExact(text, |cs|);
  }

  /** Stripped contents, then "", are stripped. */
  lemma StrippedContents(cs: seq<string>, last: seq<string>)
    requires forall i :: 0 <= i < |cs| ==> IsStripped(cs[i])
    requires last == [] || last == [""]
    ensures forall i :: 0 <= i < |cs + last| ==> IsStripped((cs + last)[i])
  {
  }

  /** Asked for as many items as there are numbered lines of stripped
      content, the parser returns exactly those contents. */
  lemma ParseNumberedLines(labs: seq<string>, cs: seq<string>)
    requires |cs| >= 1 && WellFormed(labs, cs)
    requires forall i :: 0 <= i < |cs| ==> IsStripped(cs[i])
    ensures ParseListResponse(NumberedText(labs, cs), |cs|) == cs
  {
    NumberedLinesCaptured(labs, cs);
    StrippedParse(NumberedText(labs, cs), cs);
  }

  /** With one more item asked for, a trailing bare label supplies it as "". */
  lemma ParseTrailingBareLabel(labs: seq<string>, cs: seq<string>, lab: string)
    requires |cs| >= 1 && WellFormed(labs, cs) && IsLabel(lab)
    requires forall i :: 0 <= i < |cs| ==> IsStripped(cs[i])
    ensures ParseListResponse(NumberedText(labs, cs) + "\n" + lab + ".", |cs| + 1) == cs + [""]
  {
    TrailingBareLabel(labs, cs, lab);
    StrippedContents(cs, [""]);
    StrippedParse(NumberedText(labs, cs) + "\n" + lab + ".", cs + [""]);
  }

  lemma TwoNumberedParse(c1: string, c2: string)
    requires IsContent(c1) && IsStripped(c1)
    requires IsContent(c2) && IsStripped(c2)
    ensures ParseListResponse("1. " + c1 + "\n" + "2. " + c2, 2) == [c1, c2]
  {
    var labs, cs := ["1", "2"], [c1, c2];
    assert labs[1..] == ["2"] && cs[1..] == [c2];
    assert NumberedText(labs, cs) == "1. " + c1 + "\n" + "2. " + c2;
    ParseNumberedLines(labs, cs);
  }

  /** The two-item example: "1. Alpha beta gamma delta\n2. Epsilon zeta eta theta". */
  lemma NumberedExample()
    ensures ParseListResponse("1. " + "Alpha beta gamma delta" + "\n" + "2. " + "Epsilon zeta eta theta", 2)
            == ["Alpha beta gamma delta", "Epsilon zeta eta theta"]
  {
    TwoNumberedParse("Alpha beta gamma delta", "Epsilon zeta eta theta");
  }

  /** Text without digits or newlines inside its lines: the fallback keeps
      each of two long lines. */
  lemma {:induction false} SplitTwoLines(a: string, b: string)
    requires '\n' !in a && '\n' !in b
    ensures SplitLines(a + "\n" + b) == [a, b]
  {
    if |a| == 0 {
      assert a + "\n" + b == "\n" + b;
      assert ("\n" + b)[1..] == b;
      SplitNoNewline(b);
    } else {
      assert (a + "\n" + b)[1..] == a[1..] + "\n" + b;
      assert (a + "\n" + b)[0] == a[0];
      SplitTwoLines(a[1..], b);
      assert [a[0]] + a[1..] == a;
    }
  }

  lemma {:induction false} SplitNoNewline(a: string)
    requires '\n' !in a
    ensures SplitLines(a) == [a]
  {
    if |a| > 0 {
      assert a[0] in a;
      assert forall c :: c in a[1..] ==> c in a;
      SplitNoNewline(a[1..]);
      assert [a[0]] + a[1..] == a;
    }
  }

  /** A text where no attempt matches has no captures. */
  lemma {:induction false} FindAllNoMatches(s: string, pos: nat)
    requires pos <= |s|
    requires forall k :: pos <= k < |s| ==> MatchAt(s, k) == None
    ensures FindAll(s, pos) == []
    decreases |s| - pos
  {
    if pos < |s| {
      FindAllNoMatch(s, pos);
      FindAllNoMatches(s, pos + 1);
    }
  }

  /** Two lines of more than three words each, neither starting with a
      digit (so neither is numbered), asked for two items, come back as
      they are. */
  lemma FallbackTwoLines(l1: string, l2: string)
    requires IsStripped(l1) && WordCount(l1) > 3 && '\n' !in l1
    requires IsStripped(l2) && WordCount(l2) > 3 && '\n' !in l2
    requires |l1| > 0 && |l2| > 0 && !IsDigit(l1[0]) && !IsDigit(l2[0])
    ensures ParseListResponse(l1 + "\n" + l2, 2) == [l1, l2]
  {
    var t := l1 + "\n" + l2;
    assert NumberedItems(t) == [] by {
      forall k | 0 <= k < |t| ensures MatchAt(t, k) == None {
        if k == 0 {
          assert t[0] == l1[0];
        } else if k == |l1| + 1 {
          assert t[k] == l2[0];
        } else if k <= |l1| {
          assert t[k - 1] == l1[k - 1];
        } else {
          assert t[k - 1] == l2[k - |l1| - 2];
        }
      }
      FindAllNoMatches(t, 0);
    }
    assert LongLines(t) == [l1, l2] by {
      SplitTwoLines(l1, l2);
      StrippedIsFixpoint(l1);
      StrippedIsFixpoint(l2);
      TwoLongLines(l1, l2);
    }
  }

  lemma TwoLongLines(l1: string, l2: string)
    requires Strip(l1) == l1 && WordCount(l1) > 3
    requires Strip(l2) == l2 && WordCount(l2) > 3
    ensures MoreThanThreeWords(NonBlankLines([l1, l2])) == [l1, l2]
  {
    assert [l1, l2][1..] == [l2];
    assert NonBlankLines([l2]) == [l2];
    assert NonBlankLines([l1, l2]) == [l1, l2];
  }
}
