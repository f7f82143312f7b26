/**
 * The `normalize_text` helpers of the three rationalization scripts: all of them lower-case and
 * strip; the one-vs-many script then also deletes every whole-word run of five or more x's
 * (`re.sub(r'\b[xX]{5,}\b', '', text)`).
 */
module TextNormal {
  import opened Strings

  /** Which `normalize_text` a script uses. */
  datatype Normalizer = LowerStrip | LowerStripNoXRuns

  predicate IsX(c: char) { c == 'x' || c == 'X' }

  /** The end of the run of x's that starts at position i. */
  function XEnd(s: string, i: nat): (j: nat)
    requires i <= |s|
    ensures i <= j <= |s| && (j < |s| ==> !IsX(s[j]))
    decreases |s| - i
  {
    if i < |s| && IsX(s[i]) then XEnd(s, i + 1) else i
  }

  lemma {:induction false} XEndRun(s: string, i: nat, k: nat)
    requires i <= k <= |s| && k < XEnd(s, i)
    ensures IsX(s[k])
    decreases |s| - i
  {
    if k > i {
      XEndRun(s, i + 1, k);
    }
  }

  /** The regex `\b` at position i: exactly one of the characters around it is a word character. */
  predicate WordBoundary(s: string, i: nat)
    requires i <= |s|
  {
    (i > 0 && IsWordChar(s[i - 1])) != (i < |s| && IsWordChar(s[i]))
  }

  /**
   * `\b[xX]{5,}\b` matches at position i. The x's are word characters, so the greedy run can only
   * be followed by a boundary where the whole run ends; a shorter run would end between two x's.
   */
  predicate XRunAt(s: string, i: nat)
    requires i <= |s|
  {
    i < |s| && IsX(s[i]) && WordBoundary(s, i) && XEnd(s, i) - i >= 5 && WordBoundary(s, XEnd(s, i))
  }

  /** `re.sub(r'\b[xX]{5,}\b', '', s[i:])`, scanning from position i of the original string. */
  function DropXRunsFrom(s: string, i: nat): string
    requires i <= |s|
    decreases |s| - i
  {
    if i == |s| then []
    else if XRunAt(s, i) then DropXRunsFrom(s, XEnd(s, i))
    else [s[i]] + DropXRunsFrom(s, i + 1)
  }

  function DropXRuns(s: string): string {
    DropXRunsFrom(s, 0)
  }

  /** `normalize_text(text)` */
  function Normalize(n: Normalizer, text: string): string {
    var t := Strip(Lower(text));
    match n
    case LowerStrip => t
    case LowerStripNoXRuns => DropXRuns(t)
  }

  predicate NoUpper(s: string) { forall k :: 0 <= k < |s| ==> !IsUpper(s[k]) }

  lemma LowerHasNoUpper(s: string)
    ensures NoUpper(Lower(s))
  {
  }

  /** Lower-casing text without capitals changes nothing. */
  lemma LowerOfNoUpper(s: string)
    requires NoUpper(s)
    ensures Lower(s) == s
  {
  }

  /**
   * `text.lower().strip()`: the lower-cased text is some whitespace, the result, and some more
   * whitespace; the result has no capital letter and neither starts nor ends with whitespace.
   */
  lemma LowerStripSpec(text: string) returns (lead: string, trail: string)
    ensures var r := Normalize(LowerStrip, text);
            && Lower(text) == lead + r + trail
            && AllSpace(lead) && AllSpace(trail)
            && (|r| == 0 || (!IsSpace(r[0]) && !IsSpace(r[|r| - 1])))
            && NoUpper(r)
  {
    var t := Lower(text);
    var r := Strip(t);
    assert r == Normalize(LowerStrip, text);
    StripSpec(t);
    assert |r| == 0 || (!IsSpace(r[0]) && !IsSpace(r[|r| - 1]));
    lead, trail := StripParts(t);
    LowerHasNoUpper(text);
    NoUpperMiddle(lead, r, trail);
  }

  lemma NoUpperMiddle(a: string, b: string, c: string)
    requires NoUpper(a + b + c)
    ensures NoUpper(b)
  {
    forall k | 0 <= k < |b|
      ensures !IsUpper(b[k])
    {
      assert b[k] == (a + b + c)[|a| + k];
    }
  }

  /** Normalising twice is normalising once. */
  lemma LowerStripIdempotent(text: string)
    ensures Normalize(LowerStrip, Normalize(LowerStrip, text)) == Normalize(LowerStrip, text)
  {
    var r := Normalize(LowerStrip, text);
    var _, _ := LowerStripSpec(text);
    LowerOfNoUpper(r);
    StripFixed(r);
  }

  /** The x-run removal deletes nothing but x's: every other character keeps its number of occurrences. */
  lemma {:induction false} DropXRunsKeepsOthers(s: string, i: nat, c: char)
    requires i <= |s| && !IsX(c)
    ensures multiset(DropXRunsFrom(s, i))[c] == multiset(s[i..])[c]
    decreases |s| - i
  {
    if i < |s| {
      if XRunAt(s, i) {
        var e := XEnd(s, i);
        DropXRunsKeepsOthers(s, e, c);
        XRunNoOthers(s, i, e, c);
        MultisetSplit(s, i, e);
      } else {
        DropXRunsKeepsOthers(s, i + 1, c);
        MultisetSplit(s, i, i + 1);
        assert s[i..i + 1] == [s[i]];
      }
    }
  }

  lemma MultisetSplit(s: string, i: nat, e: nat)
    requires i <= e <= |s|
    ensures multiset(s[i..]) == multiset(s[i..e]) + multiset(s[e..])
  {
    assert s[i..] == s[i..e] + s[e..];
  }

  lemma {:induction false} XRunNoOthers(s: string, i: nat, e: nat, c: char)
    requires i <= e <= |s| && e == XEnd(s, i) && !IsX(c)
    ensures multiset(s[i..e])[c] == 0
  {
    forall k | 0 <= k < e - i
      ensures s[i..e][k] != c
    {
      XEndRun(s, i, i + k);
    }
  }

  /** The x-run removal never lengthens the text. */
  lemma {:induction false} DropXRunsShorter(s: string, i: nat)
    requires i <= |s|
    ensures |DropXRunsFrom(s, i)| <= |s| - i
    decreases |s| - i
  {
    if i < |s| {
      if XRunAt(s, i) {
        DropXRunsShorter(s, XEnd(s, i));
      } else {
        DropXRunsShorter(s, i + 1);
      }
    }
  }

  /** Text without an x is left alone by the x-run removal. */
  lemma {:induction false} DropXRunsNoX(s: string, i: nat)
    requires i <= |s| && forall k :: i <= k < |s| ==> !IsX(s[k])
    ensures DropXRunsFrom(s, i) == s[i..]
    decreases |s| - i
  {
    if i < |s| {
      DropXRunsNoX(s, i + 1);
      assert s[i..] == [s[i]] + s[i + 1..];
    }
  }

  /** The x-run removal comes after the strip, so a normalised text can end in whitespace. */
  lemma RedactedTail()
    ensures Normalize(LowerStripNoXRuns, "Policy XXXXX") == "policy "
  {
    var t := "policy xxxxx";
    assert Lower("Policy XXXXX") == t;
    StripFixed(t);
    TrailingRunDropped(t);
  }

  lemma TrailingRunDropped(t: string)
    requires t == "policy xxxxx"
    ensures DropXRuns(t) == "policy "
  {
    assert XEnd(t, 7) == 12;
    assert XRunAt(t, 7);
    assert DropXRunsFrom(t, 7) == [];
    assert DropXRunsFrom(t, 6) == " ";
    assert DropXRunsFrom(t, 5) == "y ";
    assert DropXRunsFrom(t, 4) == "cy ";
    assert DropXRunsFrom(t, 3) == "icy ";
    assert DropXRunsFrom(t, 2) == "licy ";
    assert DropXRunsFrom(t, 1) == "olicy ";
  }

  /** Runs of fewer than five x's stay. */
  lemma ShortRunKept()
    ensures Normalize(LowerStripNoXRuns, "xxxx") == "xxxx"
  {
    var t := "xxxx";
    assert Lower(t) == t;
    StripFixed(t);
    assert XEnd(t, 0) == 4;
    assert !XRunAt(t, 0);
    assert XEnd(t, 1) == 4 && XEnd(t, 2) == 4 && XEnd(t, 3) == 4;
  }

  /** A run of x's inside a word stays: `\b` does not hold after a letter. */
  lemma InWordRunKept()
    ensures DropXRuns("axxxxx") == "axxxxx"
  {
    var t := "axxxxx";
    assert !XRunAt(t, 0);
    assert !WordBoundary(t, 1);
    assert XEnd(t, 2) == 6 && !WordBoundary(t, 2);
    assert !WordBoundary(t, 3) && !WordBoundary(t, 4) && !WordBoundary(t, 5);
  }
}
