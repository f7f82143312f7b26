/**
 * The regular expressions the rule-extraction scripts apply to markup and headings, written
 * out as scans: `re.search(r'#Rule(\d+)', s, re.IGNORECASE)` and its `#Function` twin,
 * `re.match(r"^(R\d+)\s+(.*)", s)`, `re.match(r"^F\d+", s)` and
 * `re.match(r"(R\d+|F\d+)\s*(.*)", s)`. `\d` is an ASCII digit, `\s` a character for which
 * `isspace()` holds and `.` any character but a newline; a greedy `\d+` or `\s*` takes the
 * whole run, since nothing after it needs it to give any back.
 */
module Patterns {
  import opened Options
  import opened Strings

  predicate AllDigits(s: string) {
    forall k :: 0 <= k < |s| ==> IsDigit(s[k])
  }

  lemma {:induction false} DigitEndAt(s: string, i: nat, j: nat)
    requires i <= j <= |s| && AllDigits(s[i..j]) && (j == |s| || !IsDigit(s[j]))
    ensures DigitEnd(s, i) == j
    decreases j - i
  {
    if i < j {
      assert IsDigit(s[i..j][0]);
      assert s[i + 1..j] == s[i..j][1..];
      DigitEndAt(s, i + 1, j);
    }
  }

  lemma {:induction false} SkipSpaceAt(s: string, i: nat, j: nat)
    requires i <= j <= |s| && AllSpace(s[i..j]) && (j == |s| || !IsSpace(s[j]))
    ensures SkipSpace(s, i) == j
    decreases j - i
  {
    if i < j {
      assert IsSpace(s[i..j][0]);
      assert s[i + 1..j] == s[i..j][1..];
      SkipSpaceAt(s, i + 1, j);
    }
  }

  lemma {:induction false} LineEndAt(s: string, i: nat, j: nat)
    requires i <= j <= |s| && '\n' !in s[i..j] && (j == |s| || s[j] == '\n')
    ensures LineEnd(s, i) == j
    decreases j - i
  {
    if i < j {
      assert s[i..j][0] == s[i];
      assert s[i + 1..j] == s[i..j][1..];
      LineEndAt(s, i + 1, j);
    }
  }

  lemma {:induction false} LineEndNoNewline(s: string, i: nat)
    requires i <= |s|
    ensures '\n' !in s[i..LineEnd(s, i)]
  {
    forall k | 0 <= k < LineEnd(s, i) - i
      ensures s[i..LineEnd(s, i)][k] != '\n'
    {
      LineEndRun(s, i, i + k);
    }
  }

  lemma DigitRun(s: string, i: nat)
    requires i <= |s|
    ensures AllDigits(s[i..DigitEnd(s, i)])
  {
    forall k | 0 <= k < DigitEnd(s, i) - i
      ensures IsDigit(s[i..DigitEnd(s, i)][k])
    {
      DigitEndRun(s, i, i + k);
    }
  }

  lemma SpaceRun(s: string, i: nat)
    requires i <= |s|
    ensures AllSpace(s[i..SkipSpace(s, i)])
  {
    forall k | 0 <= k < SkipSpace(s, i) - i
      ensures IsSpace(s[i..SkipSpace(s, i)][k])
    {
      SkipSpaceRun(s, i, i + k);
    }
  }

  // ---- `#Rule(\d+)` and `#Function(\d+)`, searched ignoring case ----

  /** At position i, `word` occurs ignoring ASCII case and a digit follows it (`word` is given in lower case). */
  predicate TaggedAt(s: string, word: string, i: nat) {
    i + |word| < |s| && Lower(s[i..i + |word|]) == word && IsDigit(s[i + |word|])
  }

  /** The leftmost position at or after i where the pattern matches. */
  function FirstTagged(s: string, word: string, i: nat): (r: Option<nat>)
    requires i <= |s|
    ensures r.Some? ==> i <= r.value && TaggedAt(s, word, r.value)
    decreases |s| - i
  {
    if i == |s| then None else if TaggedAt(s, word, i) then Some(i) else FirstTagged(s, word, i + 1)
  }

  lemma {:induction false} FirstTaggedSkips(s: string, word: string, i: nat, k: nat)
    requires i <= k && i <= |s|
    requires FirstTagged(s, word, i).None? || k < FirstTagged(s, word, i).value
    ensures !TaggedAt(s, word, k)
    decreases |s| - i
  {
    if k > i && i < |s| {
      FirstTaggedSkips(s, word, i + 1, k);
    }
  }

  /** `re.search(word + r"(\d+)", s, re.IGNORECASE)`: the captured digits, or None when the pattern occurs nowhere. */
  function TaggedNumber(s: string, word: string): Option<string> {
    match FirstTagged(s, word, 0)
    case None => None
    case Some(i) => Some(s[i + |word|..DigitEnd(s, i + |word|)])
  }

  /** No match exactly when the pattern occurs at no position. */
  lemma TaggedNumberNone(s: string, word: string)
    ensures TaggedNumber(s, word).None? <==> forall k: nat :: !TaggedAt(s, word, k)
  {
    if TaggedNumber(s, word).None? {
      forall k: nat ensures !TaggedAt(s, word, k) {
        FirstTaggedSkips(s, word, 0, k);
      }
    }
  }

  /**
   * A match is found at the leftmost position where the pattern occurs, and the number is the
   * whole run of digits after the word there: non-empty, and not followed by another digit.
   */
  lemma TaggedNumberLeftmost(s: string, word: string) returns (i: nat)
    requires TaggedNumber(s, word).Some?
    ensures TaggedAt(s, word, i) && forall k: nat :: k < i ==> !TaggedAt(s, word, k)
    ensures var d := TaggedNumber(s, word).value;
            && |d| > 0 && AllDigits(d) && StartsWith(s[i + |word|..], d)
            && (i + |word| + |d| == |s| || !IsDigit(s[i + |word| + |d|]))
  {
    i := FirstTagged(s, word, 0).value;
    forall k: nat | k < i ensures !TaggedAt(s, word, k) {
      FirstTaggedSkips(s, word, 0, k);
    }
    var e := DigitEnd(s, i + |word|);
    DigitRun(s, i + |word|);
    assert s[i + |word|..][..e - (i + |word|)] == s[i + |word|..e];
  }

  // ---- `^(R\d+)\s+(.*)` ----

  /** s starts with `letter` and a digit: `re.match(letter + r"\d+", s)` succeeds. */
  predicate StartsCoded(s: string, letter: char) {
    |s| >= 2 && s[0] == letter && IsDigit(s[1])
  }

  /** `re.match(r"^(R\d+)\s+(.*)", s)`: the code and the rest of its line after the whitespace, or None. */
  function CodeSpaceRest(s: string): Option<(string, string)> {
    if !StartsCoded(s, 'R') then None
    else
      var d := DigitEnd(s, 1);
      if d == |s| || !IsSpace(s[d]) then None
      else
        var w := SkipSpace(s, d);
        Some((s[..d], s[w..LineEnd(s, w)]))
  }

  /**
   * What a heading of the form "R" + digits + whitespace + rest-of-line looks like: the parts
   * `re.match(r"^(R\d+)\s+(.*)", s)` separates.
   */
  predicate RuleNameParts(digits: string, space: string, rest: string, tail: string) {
    && |digits| > 0 && AllDigits(digits)
    && |space| > 0 && AllSpace(space)
    && (|rest| == 0 ==> |tail| == 0) && (|rest| > 0 ==> !IsSpace(rest[0]))
    && '\n' !in rest && (|tail| == 0 || tail[0] == '\n')
  }

  /** Putting the parts together and matching gives back the code and the rest of the line. */
  lemma CodeSpaceRestRoundTrip(digits: string, space: string, rest: string, tail: string)
    requires RuleNameParts(digits, space, rest, tail)
    ensures CodeSpaceRest("R" + digits + space + rest + tail) == Some(("R" + digits, rest))
  {
    var s := "R" + digits + space + rest + tail;
    var d := 1 + |digits|;
    var w := d + |space|;
    var l := w + |rest|;
    assert s[1..d] == digits;
    assert s[d] == space[0];
    DigitEndAt(s, 1, d);
    assert s[d..w] == space;
    if |rest| > 0 {
      assert s[w] == rest[0];
    }
    SkipSpaceAt(s, d, w);
    assert s[w..l] == rest;
    if |tail| > 0 {
      assert s[l] == tail[0];
    }
    LineEndAt(s, w, l);
    assert s[..d] == "R" + digits;
  }

  /** Whatever matches splits into such parts: the match is the only way to read the heading. */
  lemma CodeSpaceRestSplits(s: string) returns (space: string, tail: string)
    requires CodeSpaceRest(s).Some?
    ensures var (code, rest) := CodeSpaceRest(s).value;
            |code| >= 2 && code[0] == 'R' && RuleNameParts(code[1..], space, rest, tail)
            && s == code + space + rest + tail
  {
    var d := DigitEnd(s, 1);
    var w := SkipSpace(s, d);
    var l := LineEnd(s, w);
    space, tail := s[d..w], s[l..];
    DigitRun(s, 1);
    SpaceRun(s, d);
    LineEndNoNewline(s, w);
    assert s[..d][1..] == s[1..d];
    assert s == s[..d] + s[d..w] + s[w..l] + s[l..];
  }

  // ---- `(R\d+|F\d+)\s*(.*)` ----

  /** `re.match(r"(R\d+|F\d+)\s*(.*)", s)`: the code and the rest of its line after any whitespace, or None. */
  function CodeRest(s: string): Option<(string, string)> {
    if !StartsCoded(s, 'R') && !StartsCoded(s, 'F') then None
    else
      var d := DigitEnd(s, 1);
      var w := SkipSpace(s, d);
      Some((s[..d], s[w..LineEnd(s, w)]))
  }

  /**
   * The parts of a heading "R" or "F" + digits + optional whitespace + rest-of-line; with no
   * whitespace the rest must not start with a digit, which the greedy `\d+` would have taken.
   */
  predicate CodeParts(digits: string, space: string, rest: string, tail: string) {
    && |digits| > 0 && AllDigits(digits) && AllSpace(space)
    && (|rest| == 0 ==> |tail| == 0) && (|rest| > 0 ==> !IsSpace(rest[0]) && (|space| > 0 || !IsDigit(rest[0])))
    && '\n' !in rest && (|tail| == 0 || tail[0] == '\n')
  }

  lemma CodeRestRoundTrip(letter: char, digits: string, space: string, rest: string, tail: string)
    requires letter == 'R' || letter == 'F'
    requires CodeParts(digits, space, rest, tail)
    ensures CodeRest([letter] + digits + space + rest + tail) == Some(([letter] + digits, rest))
  {
    var s := [letter] + digits + space + rest + tail;
    var d := 1 + |digits|;
    var w := d + |space|;
    var l := w + |rest|;
    assert s[1..d] == digits;
    assert s[1] == digits[0];
    assert s[d..w] == space;
    if |space| > 0 {
      assert s[d] == space[0];
    } else if |rest| > 0 {
      assert s[d] == rest[0];
    }
    DigitEndAt(s, 1, d);
    if |rest| > 0 {
      assert s[w] == rest[0];
    }
    SkipSpaceAt(s, d, w);
    assert s[w..l] == rest;
    if |tail| > 0 {
      assert s[l] == tail[0];
    }
    LineEndAt(s, w, l);
    assert s[..d] == [letter] + digits;
  }

  lemma CodeRestSplits(s: string) returns (space: string, tail: string)
    requires CodeRest(s).Some?
    ensures var (code, rest) := CodeRest(s).value;
            |code| >= 2 && (code[0] == 'R' || code[0] == 'F') && CodeParts(code[1..], space, rest, tail)
            && s == code + space + rest + tail
  {
    var d := DigitEnd(s, 1);
    var w := SkipSpace(s, d);
    var l := LineEnd(s, w);
    space, tail := s[d..w], s[l..];
    DigitRun(s, 1);
    SpaceRun(s, d);
    LineEndNoNewline(s, w);
    assert s[..d][1..] == s[1..d];
    assert s == s[..d] + s[d..w] + s[w..l] + s[l..];
  }
}
