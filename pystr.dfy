/** Shared option type. */
module Wrappers {
  datatype Option<+T> = None | Some(value: T)
}

/**
 * The few Python `str` builtins the service relies on, stated over `string`
 * (a sequence of Unicode scalar values): `str.isspace`, `str.strip`,
 * `str.split('\n')`, `str.split()`, the `in` substring test, slicing
 * `xs[:k]`, `[x for _ in range(n)]`, integer formatting in f-strings and the
 * truthiness of an optional string.
 */
module PyStr {
  import opened Wrappers

  /** Python's `str.isspace()` for one character: the set that `strip()`,
      `split()` and the regular-expression class `\s` all use. */
  predicate IsSpace(c: char) {
    var k := c as int;
    (9 <= k <= 13) || (0x1c <= k <= 0x20) || k == 0x85 || k == 0xa0 || k == 0x1680
    || (0x2000 <= k <= 0x200a) || k == 0x2028 || k == 0x2029 || k == 0x202f
    || k == 0x205f || k == 0x3000
  }

  predicate AllSpace(s: string) {
    forall i :: 0 <= i < |s| ==> IsSpace(s[i])
  }

  /** What `strip()` guarantees: no whitespace at either end. */
  predicate IsStripped(s: string) {
    |s| == 0 || (!IsSpace(s[0]) && !IsSpace(s[|s| - 1]))
  }

  /** Where `s.lstrip()` starts: the end of the leading whitespace. */
  function LeadEnd(s: string, i: nat): (j: nat)
    requires i <= |s|
    ensures i <= j <= |s|
    ensures forall k :: i <= k < j ==> IsSpace(s[k])
    ensures j < |s| ==> !IsSpace(s[j])
    decreases |s| - i
  {
    if i < |s| && IsSpace(s[i]) then LeadEnd(s, i + 1) else i
  }

  /** Where `s.rstrip()` ends: the start of the trailing whitespace. */
  function TrailStart(s: string, j: nat): (i: nat)
    requires j <= |s|
    ensures i <= j
    ensures forall k :: i <= k < j ==> IsSpace(s[k])
    ensures i > 0 ==> !IsSpace(s[i - 1])
  {
    if j > 0 && IsSpace(s[j - 1]) then TrailStart(s, j - 1) else j
  }

  /** `s.strip()`: `s` without its leading and trailing whitespace. */
  function Strip(s: string): (r: string)
    ensures IsStripped(r)
    ensures |r| <= |s|
  {
    var l := s[LeadEnd(s, 0)..];
    l[..TrailStart(l, |l|)]
  }

  /** `s.strip()` is a slice of s with only whitespace cut away on either
      side; with `IsStripped` this pins the slice down. */
  lemma StripSlice(s: string)
    ensures exists a, b :: 0 <= a <= b <= |s| && Strip(s) == s[a..b] && AllSpace(s[..a]) && AllSpace(s[b..])
  {
    var a := LeadEnd(s, 0);
    var l := s[a..];
    var t := TrailStart(l, |l|);
    assert l[..t] == s[a..a + t];
    assert s[a + t..] == l[t..];
    assert AllSpace(s[..a]) && AllSpace(s[a + t..]);
  }

  /** `s.strip()` is empty exactly when `s` is all whitespace. */
  lemma StripBlank(s: string)
    ensures |Strip(s)| == 0 <==> AllSpace(s)
  {
    var a := LeadEnd(s, 0);
    var l := s[a..];
    var b := TrailStart(l, |l|);
    if |Strip(s)| == 0 {
      assert a == |s|;
    } else {
      assert a < |s|;
    }
  }

  lemma AllSpacePlus(a: string, b: string)
    requires AllSpace(a) && AllSpace(b)
    ensures AllSpace(a + b)
  {
    assert forall i :: |a| <= i < |a + b| ==> (a + b)[i] == b[i - |a|];
  }

  /** Stripping is idempotent. */
  lemma StripIdempotent(s: string)
    ensures Strip(Strip(s)) == Strip(s)
  {
    StrippedIsFixpoint(Strip(s));
  }

  lemma StrippedIsFixpoint(s: string)
    requires IsStripped(s)
    ensures Strip(s) == s
  {
    assert LeadEnd(s, 0) == 0;
    assert s[0..] == s;
    assert TrailStart(s, |s|) == |s|;
  }

  /** `s.split('\n')`: at least one piece, pieces hold no newline, and
      joining them back with newlines gives `s`. */
  function SplitLines(s: string): (r: seq<string>)
    ensures |r| >= 1
    ensures forall k, j :: 0 <= k < |r| && 0 <= j < |r[k]| ==> r[k][j] != '\n'
  {
    if |s| == 0 then [""]
    else
      var rest := SplitLines(s[1..]);
      if s[0] == '\n' then [""] + rest
      else [[s[0]] + rest[0]] + rest[1..]
  }

  function JoinLines(parts: seq<string>): string
    requires |parts| >= 1
  {
    if |parts| == 1 then parts[0] else parts[0] + "\n" + JoinLines(parts[1..])
  }

  lemma {:induction false} SplitLinesJoin(s: string)
    ensures JoinLines(SplitLines(s)) == s
  {
    if |s| > 0 {
      SplitLinesJoin(s[1..]);
      var rest := SplitLines(s[1..]);
      if s[0] == '\n' {
        assert SplitLines(s)[1..] == rest;
        assert s == [s[0]] + s[1..];
      } else {
        var r := SplitLines(s);
        if |rest| == 1 {
          assert r == [[s[0]] + rest[0]];
        } else {
          assert r[1..] == rest[1..];
          assert JoinLines(rest) == rest[0] + "\n" + JoinLines(rest[1..]);
        }
        assert s == [s[0]] + s[1..];
      }
    }
  }

  /** Splitting two texts joined by a newline splits each of them. */
  lemma {:induction false} SplitLinesJoinTexts(t1: string, t2: string)
    ensures SplitLines(t1 + "\n" + t2) == SplitLines(t1) + SplitLines(t2)
  {
    var s := t1 + "\n" + t2;
    if |t1| == 0 {
      assert s == "\n" + t2;
      assert s[1..] == t2;
    } else {
      assert s[0] == t1[0];
      assert s[1..] == t1[1..] + "\n" + t2;
      SplitLinesJoinTexts(t1[1..], t2);
    }
  }

  /** Every line of an all-whitespace text is all whitespace. */
  lemma {:induction false} SplitLinesAllSpace(s: string)
    requires AllSpace(s)
    ensures forall k :: 0 <= k < |SplitLines(s)| ==> AllSpace(SplitLines(s)[k])
  {
    if |s| > 0 {
      assert AllSpace(s[1..]) by {
        assert forall i :: 0 <= i < |s| - 1 ==> s[1..][i] == s[i + 1];
      }
      SplitLinesAllSpace(s[1..]);
      var rest := SplitLines(s[1..]);
      if s[0] != '\n' {
        var first := [s[0]] + rest[0];
        assert AllSpace(first) by {
          assert forall i :: 1 <= i < |first| ==> first[i] == rest[0][i - 1];
        }
        assert SplitLines(s) == [first] + rest[1..];
      }
    }
  }

  /** `len(s.split())`: the number of maximal runs of non-whitespace, which
      is the number of positions where a word starts. */
  function WordCount(s: string): (n: nat)
    ensures n == WordStartsFrom(s, 0)
    ensures n > 0 ==> !AllSpace(s)
  {
    WordsFromStarts(s, 0);
    WordsFrom(s, 0)
  }

  /** The number of maximal runs of non-whitespace in `s[i..]`. */
  function WordsFrom(s: string, i: nat): (n: nat)
    requires i <= |s|
    ensures n > 0 ==> exists k :: i <= k < |s| && !IsSpace(s[k])
    decreases |s| - i
  {
    if i == |s| then 0
    else if IsSpace(s[i]) then WordsFrom(s, i + 1)
    else 1 + WordsFrom(s, WordEnd(s, i))
  }

  /** The end of the run of non-whitespace that starts at i. */
  function WordEnd(s: string, i: nat): (j: nat)
    requires i < |s| && !IsSpace(s[i])
    ensures i < j <= |s|
    ensures forall k :: i <= k < j ==> !IsSpace(s[k])
    ensures j < |s| ==> IsSpace(s[j])
    decreases |s| - i
  {
    if i + 1 < |s| && !IsSpace(s[i + 1]) then WordEnd(s, i + 1) else i + 1
  }

  /** A word starts at k: a non-whitespace character at the front or after
      whitespace. */
  predicate WordStartAt(s: string, k: nat)
    requires k < |s|
  {
    !IsSpace(s[k]) && (k == 0 || IsSpace(s[k - 1]))
  }

  /** The number of word starts at positions i and after. */
  function WordStartsFrom(s: string, i: nat): nat
    requires i <= |s|
    decreases |s| - i
  {
    if i == |s| then 0 else (if WordStartAt(s, i) then 1 else 0) + WordStartsFrom(s, i + 1)
  }

  /** Counting runs from a boundary counts the word starts after it. */
  lemma {:induction false} WordsFromStarts(s: string, i: nat)
    requires i <= |s|
    requires i == 0 || i == |s| || IsSpace(s[i - 1]) || IsSpace(s[i])
    ensures WordsFrom(s, i) == WordStartsFrom(s, i)
    decreases |s| - i
  {
    if i < |s| {
      if IsSpace(s[i]) {
        WordsFromStarts(s, i + 1);
      } else {
        var j := WordEnd(s, i);
        InsideWordNoStarts(s, i + 1, j);
        WordsFromStarts(s, j);
      }
    }
  }

  /** No word starts inside a run of non-whitespace. */
  lemma {:induction false} InsideWordNoStarts(s: string, i: nat, j: nat)
    requires 0 < i <= j <= |s|
    requires forall k :: i - 1 <= k < j ==> !IsSpace(s[k])
    ensures WordStartsFrom(s, i) == WordStartsFrom(s, j)
    decreases j - i
  {
    if i < j {
      InsideWordNoStarts(s, i + 1, j);
    }
  }

  predicate StartsWith(s: string, p: string) {
    |p| <= |s| && s[..|p|] == p
  }

  /** `(p + s).startswith(p)`. */
  lemma StartsWithPlus(p: string, s: string)
    ensures StartsWith(p + s, p)
  {
    assert (p + s)[..|p|] == p;
  }

  lemma Regroup(x: string, y: string, z: string, w: string)
    ensures x + y + z + w == x + (y + z + w)
  {
  }

  /** Strings whose first characters differ do not start one with the other. */
  lemma NotStartsWithFirst(s: string, p: string)
    requires |s| > 0 && |p| > 0 && s[0] != p[0]
    ensures !StartsWith(s, p)
  {
  }

  lemma StartsWithSelf(s: string)
    ensures StartsWith(s, s)
  {
    assert s[..|s|] == s;
  }

  lemma StartsWithExtend(s: string, p: string, q: string)
    requires StartsWith(s, p)
    ensures StartsWith(s + q, p)
  {
    assert (s + q)[..|p|] == s[..|p|];
  }

  lemma StartsWithTrans(s: string, q: string, p: string)
    requires StartsWith(s, q) && StartsWith(q, p)
    ensures StartsWith(s, p)
  {
    assert s[..|p|] == q[..|p|];
  }

  lemma EndsWithPrepend(z: string, s: string, p: string)
    requires EndsWith(s, p)
    ensures EndsWith(z + s, p)
  {
    assert (z + s)[|z + s| - |p|..] == s[|s| - |p|..];
  }

  /** A string lacking t's first character does not contain t. */
  lemma NotContainsChar(s: string, t: string)
    requires |t| > 0 && t[0] !in s
    ensures !Contains(s, t)
  {
    if Contains(s, t) {
      ContainsChars(s, t, 0);
    }
  }

  /** `t not in a1 + a2 + b` when t's first character occurs in neither a2 nor
      b, and its last character occurs in neither a1 nor a2, with a2 at least
      as long as t without its first character: an occurrence starting in a1
      would have to end inside a1 + a2. */
  lemma {:induction false} NotContainsAt(a1: string, a2: string, b: string, t: string)
    requires |t| >= 1 && |a2| >= |t| - 1
    requires t[|t| - 1] !in a1 && t[|t| - 1] !in a2
    requires t[0] !in a2 && t[0] !in b
    ensures !Contains(a1 + a2 + b, t)
  {
    if |a1| == 0 {
      assert a1 + a2 + b == a2 + b;
      NotContainsChar(a2 + b, t);
    } else {
      assert !StartsWith(a1 + a2 + b, t) by {
        var s := a1 + a2 + b;
        var j := |t| - 1;
        assert j < |a1| + |a2|;
        if j < |a1| {
          assert s[j] == a1[j];
        } else {
          assert s[j] == a2[j - |a1|];
        }
      }
      assert (a1 + a2 + b)[1..] == a1[1..] + a2 + b;
      assert forall c :: c in a1[1..] ==> c in a1;
      NotContainsAt(a1[1..], a2, b, t);
    }
  }

  /** `t in p + t`. */
  lemma ContainsSuffix(p: string, t: string)
    ensures Contains(p + t, t)
  {
    StartsWithSelf(t);
    ContainsAfter(p, t, t);
  }

  /** `(s + p).endswith(p)`. */
  lemma EndsWithPlus(s: string, p: string)
    ensures EndsWith(s + p, p)
  {
    assert (s + p)[|s + p| - |p|..] == p;
  }

  /** A text with a fixed prefix and suffix determines its middle. */
  lemma MiddleCancel(a: string, x: string, y: string, b: string)
    ensures a + x + b == a + y + b <==> x == y
  {
    if a + x + b == a + y + b {
      assert |x| == |y|;
      assert x == (a + x + b)[|a|..|a| + |x|];
      assert y == (a + y + b)[|a|..|a| + |y|];
    }
  }

  predicate EndsWith(s: string, p: string) {
    |p| <= |s| && s[|s| - |p|..] == p
  }

  /** Python's `t in s`. */
  predicate Contains(s: string, t: string)
  {
    StartsWith(s, t) || (|s| > 0 && Contains(s[1..], t))
  }

  lemma {:induction false} ContainsAfter(p: string, s: string, t: string)
    requires Contains(s, t)
    ensures Contains(p + s, t)
  {
    if |p| > 0 {
      ContainsAfter(p[1..], s, t);
      assert (p + s)[1..] == p[1..] + s;
    } else {
      assert p + s == s;
    }
  }

  lemma {:induction false} ContainsBefore(s: string, q: string, t: string)
    requires Contains(s, t)
    ensures Contains(s + q, t)
  {
    if StartsWith(s, t) {
      assert (s + q)[..|t|] == s[..|t|];
    } else {
      ContainsBefore(s[1..], q, t);
      assert (s + q)[1..] == s[1..] + q;
    }
  }

  /** `t in p + t + q`. */
  lemma ContainsMiddle(p: string, t: string, q: string)
    ensures Contains(p + t + q, t)
  {
    assert StartsWith(t + q, t) by { assert (t + q)[..|t|] == t; }
    ContainsAfter(p, t + q, t);
    assert p + t + q == p + (t + q);
  }

  /** Every character of a contained string occurs in the container. */
  lemma {:induction false} ContainsChars(s: string, t: string, j: nat)
    requires Contains(s, t) && j < |t|
    ensures t[j] in s
  {
    if StartsWith(s, t) {
      assert s[j] == t[j];
    } else {
      ContainsChars(s[1..], t, j);
    }
  }

  /** An occurrence of t cannot start inside a prefix that lacks t's first
      character. */
  lemma {:induction false} ContainsSkip(p: string, s: string, t: string)
    requires |t| > 0 && t[0] !in p
    requires Contains(p + s, t)
    ensures Contains(s, t)
  {
    if |p| > 0 {
      assert (p + s)[0] == p[0];
      assert !StartsWith(p + s, t);
      assert (p + s)[1..] == p[1..] + s;
      ContainsSkip(p[1..], s, t);
    } else {
      assert p + s == s;
    }
  }

  /** `xs[:k]` with Python's meaning for a negative k (drop the last -k). */
  function Take<T>(xs: seq<T>, k: int): (r: seq<T>)
    ensures k >= 0 ==> |r| == if k < |xs| then k else |xs|
    ensures k < 0 ==> |r| == if |xs| + k > 0 then |xs| + k else 0
    ensures r == xs[..|r|]
  {
    if k >= 0 then (if k < |xs| then xs[..k] else xs)
    else if |xs| + k > 0 then xs[..|xs| + k] else []
  }

  /** `[x for _ in range(n)]`. */
  function Repeat<T>(x: T, n: int): (r: seq<T>)
    ensures |r| == (if n > 0 then n else 0)
    ensures forall i :: 0 <= i < |r| ==> r[i] == x
  {
    seq(if n > 0 then n else 0, _ => x)
  }

  function DigitChar(d: nat): (c: char)
    requires d < 10
    ensures '0' <= c <= '9'
  {
    ('0' as int + d) as char
  }

  /** `str(n)` for a natural number: decimal digits, without leading zeros. */
  function NatToDecimal(n: nat): (r: string)
    ensures |r| >= 1
    ensures forall i :: 0 <= i < |r| ==> '0' <= r[i] <= '9'
    ensures |r| > 1 ==> r[0] != '0'
  {
    if n < 10 then [DigitChar(n)] else NatToDecimal(n / 10) + [DigitChar(n % 10)]
  }

  /** The value of a string of decimal digits. */
  function DecimalValue(s: string): nat
    requires forall i :: 0 <= i < |s| ==> '0' <= s[i] <= '9'
  {
    if |s| == 0 then 0
    else 10 * DecimalValue(s[..|s| - 1]) + (s[|s| - 1] as int - '0' as int)
  }

  /** Reading the decimal literal back gives the number. */
  lemma {:induction false} DecimalRoundTrip(n: nat)
    ensures DecimalValue(NatToDecimal(n)) == n
  {
    if n >= 10 {
      DecimalRoundTrip(n / 10);
      var r := NatToDecimal(n);
      assert r[..|r| - 1] == NatToDecimal(n / 10);
    }
  }

  /** `str(n)` / `f"{n}"` for any integer. */
  function IntToDecimal(n: int): (r: string)
    // A sign exactly for a negative number, then at least one digit.
    ensures |r| > 0 && (r[0] == '-' <==> n < 0)
    ensures var sign := if n < 0 then 1 else 0;
            |r| > sign && forall i :: sign <= i < |r| ==> '0' <= r[i] <= '9'
    // The digits read back as the magnitude, without a leading zero.
    ensures var digits := if n < 0 then r[1..] else r;
            DecimalValue(digits) == (if n < 0 then -n else n) && (|digits| > 1 ==> digits[0] != '0')
  {
    var m: nat := if n < 0 then -n else n;
    DecimalRoundTrip(m);
    var digits := NatToDecimal(m);
    assert ("-" + digits)[1..] == digits;
    if n < 0 then "-" + digits else digits
  }

  /** Python truthiness of an `Optional[str]`: neither None nor "". */
  predicate Truthy(s: Option<string>) {
    s.Some? && s.value != ""
  }
}
