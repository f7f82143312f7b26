/**
 * The parts of Python's `str` that the scripts rely on: whitespace, `lower()`, `strip()`,
 * `split()`, the `in` operator, `startswith`, `endswith`, `join`, `count` and slicing.
 * A Python string is a sequence of code points, so `len(s)` is `|s|` here.
 */
module Strings {

  /** `c.isspace()`: the characters that `split()` and `strip()` treat as whitespace. */
  predicate IsSpace(c: char) {
    c == ' ' || ('\t' <= c <= '\r') || ('\U{1C}' <= c <= '\U{1F}') || c == '\U{85}'
    || c == '\U{A0}' || c == '\U{1680}' || ('\U{2000}' <= c <= '\U{200A}') || c == '\U{2028}'
    || c == '\U{2029}' || c == '\U{202F}' || c == '\U{205F}' || c == '\U{3000}'
  }

  predicate IsUpper(c: char) { 'A' <= c <= 'Z' }

  /** The regex class `\d` (ASCII digits). */
  predicate IsDigit(c: char) { '0' <= c <= '9' }

  /** The regex class `\w` (ASCII letters, digits and the underscore). */
  predicate IsWordChar(c: char) { 'a' <= c <= 'z' || IsUpper(c) || IsDigit(c) || c == '_' }

  predicate NoSpace(s: string) { forall k :: 0 <= k < |s| ==> !IsSpace(s[k]) }

  function LowerChar(c: char): char {
    if IsUpper(c) then (c as int + 32) as char else c
  }

  /** `s.lower()` */
  function Lower(s: string): string {
    seq(|s|, k requires 0 <= k < |s| => LowerChar(s[k]))
  }

  lemma LowerIdempotent(s: string)
    ensures Lower(Lower(s)) == Lower(s)
  {
    assert forall k :: 0 <= k < |s| ==> Lower(Lower(s))[k] == Lower(s)[k];
  }

  /** The position just past the last non-whitespace character among the first j (0 if there is none). */
  function TrimEnd(s: string, j: nat): (n: nat)
    requires j <= |s|
    ensures n <= j && (n > 0 ==> !IsSpace(s[n - 1]))
  {
    if j > 0 && IsSpace(s[j - 1]) then TrimEnd(s, j - 1) else j
  }

  lemma {:induction false} TrimEndRun(s: string, j: nat, k: nat)
    requires j <= |s| && TrimEnd(s, j) <= k < j
    ensures IsSpace(s[k])
  {
    if k < j - 1 {
      TrimEndRun(s, j - 1, k);
    }
  }

  /** `s.strip()`: the part of `s` between its leading and its trailing whitespace. */
  function Strip(s: string): string {
    var i, j := SkipSpace(s, 0), TrimEnd(s, |s|);
    if i < j then s[i..j] else []
  }

  /**
   * `s.strip()` neither starts nor ends with whitespace, is empty exactly when `s` is all
   * whitespace, and otherwise is `s` from its first to its last non-whitespace character.
   */
  lemma StripSpec(s: string)
    ensures var r := Strip(s);
            && (|r| == 0 || (!IsSpace(r[0]) && !IsSpace(r[|r| - 1])))
            && (|r| == 0 <==> forall k :: 0 <= k < |s| ==> IsSpace(s[k]))
            && (|r| > 0 ==> r == s[SkipSpace(s, 0)..TrimEnd(s, |s|)])
  {
    var i, j := SkipSpace(s, 0), TrimEnd(s, |s|);
    if i < j {
      assert !IsSpace(s[i]);
    } else {
      forall k | 0 <= k < |s|
        ensures IsSpace(s[k])
      {
        if k < i {
          SkipSpaceRun(s, 0, k);
        } else {
          TrimEndRun(s, |s|, k);
        }
      }
    }
  }

  predicate AllSpace(s: string) { forall k :: 0 <= k < |s| ==> IsSpace(s[k]) }

  /** `s.strip()` removes only whitespace: `s` is some whitespace, its strip, and some more whitespace. */
  lemma StripParts(s: string) returns (lead: string, trail: string)
    ensures s == lead + Strip(s) + trail && AllSpace(lead) && AllSpace(trail)
  {
    var i, j := SkipSpace(s, 0), TrimEnd(s, |s|);
    if i < j {
      lead, trail := s[..i], s[j..];
      forall k | 0 <= k < i
        ensures IsSpace(lead[k])
      {
        SkipSpaceRun(s, 0, k);
      }
      forall k | 0 <= k < |trail|
        ensures IsSpace(trail[k])
      {
        TrimEndRun(s, |s|, j + k);
      }
      assert s == s[..i] + s[i..j] + s[j..];
    } else {
      StripSpec(s);
      lead, trail := s, [];
      assert s == lead + [] + trail;
    }
  }

  /** Skipping whitespace from i stops at or before the first non-whitespace character after i. */
  lemma {:induction false} SkipSpaceStops(s: string, i: nat, k: nat)
    requires i <= k < |s| && !IsSpace(s[k])
    ensures SkipSpace(s, i) <= k
    decreases |s| - i
  {
    if i < k && IsSpace(s[i]) {
      SkipSpaceStops(s, i + 1, k);
    }
  }

  /** Trimming whitespace from the end of the first j characters keeps every non-whitespace one. */
  lemma {:induction false} TrimEndStops(s: string, j: nat, k: nat)
    requires k < j <= |s| && !IsSpace(s[k])
    ensures k < TrimEnd(s, j)
  {
    if k < j - 1 && IsSpace(s[j - 1]) {
      TrimEndStops(s, j - 1, k);
    }
  }

  /** `s.strip()` keeps every occurrence of a text that neither starts nor ends with whitespace. */
  lemma StripKeeps(s: string, p: string)
    requires |p| > 0 && !IsSpace(p[0]) && !IsSpace(p[|p| - 1]) && Contains(s, p)
    ensures Contains(Strip(s), p)
  {
    var i :| 0 <= i <= |s| - |p| && OccursAt(s, p, i);
    var j := i + |p| - 1;
    assert s[i] == p[0] && s[j] == p[|p| - 1];
    SkipSpaceStops(s, 0, i);
    TrimEndStops(s, |s|, j);
    var b, e := SkipSpace(s, 0), TrimEnd(s, |s|);
    assert Strip(s) == s[b..e];
    OccursInSlice(s, p, i, b, e);
  }

  /** An occurrence inside a slice is an occurrence in the slice, shifted by its start. */
  lemma OccursInSlice(s: string, p: string, i: nat, b: nat, e: nat)
    requires b <= i && i + |p| <= e <= |s| && OccursAt(s, p, i)
    ensures OccursAt(s[b..e], p, i - b)
  {
    var r := s[b..e];
    forall t | 0 <= t < |p|
      ensures r[i - b..i - b + |p|][t] == p[t]
    {
      assert r[i - b..i - b + |p|][t] == r[i - b + t] == s[i + t];
      assert s[i..i + |p|][t] == s[i + t];
    }
    assert r[i - b..i - b + |p|] == p;
  }

  lemma StripIdempotent(s: string)
    ensures Strip(Strip(s)) == Strip(s)
  {
    StripSpec(s);
    StripFixed(Strip(s));
  }

  /** A string is its own strip exactly when it neither starts nor ends with whitespace. */
  lemma StripFixed(s: string)
    requires |s| == 0 || (!IsSpace(s[0]) && !IsSpace(s[|s| - 1]))
    ensures Strip(s) == s
  {
    if |s| > 0 {
      assert SkipSpace(s, 0) == 0;
      assert TrimEnd(s, |s|) == |s|;
      assert s[0..|s|] == s;
    }
  }

  /** The first position at or after i that is not whitespace (|s| if there is none). */
  function SkipSpace(s: string, i: nat): (j: nat)
    requires i <= |s|
    ensures i <= j <= |s| && (j < |s| ==> !IsSpace(s[j]))
    decreases |s| - i
  {
    if i < |s| && IsSpace(s[i]) then SkipSpace(s, i + 1) else i
  }

  lemma {:induction false} SkipSpaceRun(s: string, i: nat, k: nat)
    requires i <= k <= |s| && k < SkipSpace(s, i)
    ensures IsSpace(s[k])
    decreases |s| - i
  {
    if k > i {
      SkipSpaceRun(s, i + 1, k);
    }
  }

  /** The end of the run of non-whitespace characters that starts at i. */
  function WordEnd(s: string, i: nat): (j: nat)
    requires i <= |s|
    ensures i <= j <= |s| && (i < |s| && !IsSpace(s[i]) ==> i < j)
    decreases |s| - i
  {
    if i < |s| && !IsSpace(s[i]) then WordEnd(s, i + 1) else i
  }

  /** The words of `s` that start at or after position i. */
  function SplitFrom(s: string, i: nat): seq<string>
    requires i <= |s|
    decreases |s| - i
  {
    var j := SkipSpace(s, i);
    if j == |s| then [] else [s[j..WordEnd(s, j)]] + SplitFrom(s, WordEnd(s, j))
  }

  /** `s.split()` with no separator: the maximal runs of non-whitespace characters, in order. */
  function Split(s: string): seq<string> {
    SplitFrom(s, 0)
  }

  /** The number of whitespace-separated words, `len(s.split())`. */
  function WordCount(s: string): nat {
    |Split(s)|
  }

  lemma {:induction false} WordEndRun(s: string, i: nat, k: nat)
    requires i <= k <= |s| && k < WordEnd(s, i)
    ensures !IsSpace(s[k])
    decreases |s| - i
  {
    if k > i {
      WordEndRun(s, i + 1, k);
    }
  }

  /** Every word found from position i on is a non-empty run of non-whitespace characters. */
  lemma {:induction false} SplitFromWords(s: string, i: nat, k: nat)
    requires i <= |s| && k < |SplitFrom(s, i)|
    ensures |SplitFrom(s, i)[k]| > 0 && NoSpace(SplitFrom(s, i)[k])
    decreases |s| - i
  {
    var j := SkipSpace(s, i);
    var e := WordEnd(s, j);
    if k == 0 {
      forall c | 0 <= c < e - j
        ensures !IsSpace(s[j..e][c])
      {
        WordEndRun(s, j, j + c);
      }
    } else {
      SplitFromWords(s, e, k - 1);
    }
  }

  /** The words of `s.split()` are non-empty and contain no whitespace. */
  lemma SplitWords(s: string, k: nat)
    requires k < |Split(s)|
    ensures |Split(s)[k]| > 0 && NoSpace(Split(s)[k])
  {
    SplitFromWords(s, 0, k);
  }

  predicate OccursAt(s: string, p: string, i: int) {
    0 <= i && i + |p| <= |s| && s[i..i + |p|] == p
  }

  /** Python's `p in s` for strings. */
  predicate Contains(s: string, p: string) {
    exists i :: 0 <= i <= |s| - |p| && OccursAt(s, p, i)
  }

  /** `s.startswith(p)` */
  predicate StartsWith(s: string, p: string) {
    |p| <= |s| && s[..|p|] == p
  }

  /** `s.endswith(p)` */
  predicate EndsWith(s: string, p: string) {
    |p| <= |s| && s[|s| - |p|..] == p
  }

  /** `sep.join(parts[:k])` */
  function JoinTo(sep: string, parts: seq<string>, k: nat): string
    requires k <= |parts|
  {
    if k == 0 then [] else if k == 1 then parts[0] else JoinTo(sep, parts, k - 1) + sep + parts[k - 1]
  }

  /** `sep.join(parts)` */
  function Join(sep: string, parts: seq<string>): string {
    JoinTo(sep, parts, |parts|)
  }

  /** `s[:k].count(c)` for a one-character `c`. */
  function CountTo(s: string, c: char, k: nat): nat
    requires k <= |s|
  {
    if k == 0 then 0 else CountTo(s, c, k - 1) + (if s[k - 1] == c then 1 else 0)
  }

  /** `s.count(c)` for a one-character `c`. */
  function CountChar(s: string, c: char): nat {
    CountTo(s, c, |s|)
  }

  /** `s[:n]` */
  function Prefix(s: string, n: nat): (r: string)
    ensures |r| <= n && StartsWith(s, r)
    ensures |s| <= n ==> r == s
    ensures n <= |s| ==> |r| == n
  {
    if |s| <= n then s else s[..n]
  }

  /** The end of the run of digits that starts at position i. */
  function DigitEnd(s: string, i: nat): (j: nat)
    requires i <= |s|
    ensures i <= j <= |s| && (j < |s| ==> !IsDigit(s[j]))
    decreases |s| - i
  {
    if i < |s| && IsDigit(s[i]) then DigitEnd(s, i + 1) else i
  }

  lemma {:induction false} DigitEndRun(s: string, i: nat, k: nat)
    requires i <= k <= |s| && k < DigitEnd(s, i)
    ensures IsDigit(s[k])
    decreases |s| - i
  {
    if k > i {
      DigitEndRun(s, i + 1, k);
    }
  }

  /** The position of the first newline at or after i (|s| if there is none): where the regex `.*` stops. */
  function LineEnd(s: string, i: nat): (j: nat)
    requires i <= |s|
    ensures i <= j <= |s| && (j < |s| ==> s[j] == '\n')
    decreases |s| - i
  {
    if i < |s| && s[i] != '\n' then LineEnd(s, i + 1) else i
  }

  lemma {:induction false} LineEndRun(s: string, i: nat, k: nat)
    requires i <= k <= |s| && k < LineEnd(s, i)
    ensures s[k] != '\n'
    decreases |s| - i
  {
    if k > i {
      LineEndRun(s, i + 1, k);
    }
  }
}
