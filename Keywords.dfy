/**
 * Keyword tables: an ordered list of (keyword, label) rows read top to bottom, the first row
 * whose keyword occurs in a name giving its label. Every categoriser in the rule-extraction
 * scripts is such a table with its own rows, its own default and its own case handling.
 */
module Keywords {
  import opened Strings

  datatype Rule = Rule(keyword: string, name: string)

  /** The label of the first rule whose keyword occurs in `text`, or `default` when none does. */
  function FirstMatch(rules: seq<Rule>, text: string, default: string): (result: string)
    ensures (forall k :: 0 <= k < |rules| ==> !Contains(text, rules[k].keyword)) ==> result == default
    ensures (exists k :: 0 <= k < |rules| && Contains(text, rules[k].keyword)) ==>
              exists k :: 0 <= k < |rules| && Contains(text, rules[k].keyword) && result == rules[k].name
                          && forall k' :: 0 <= k' < k ==> !Contains(text, rules[k'].keyword)
  {
    if |rules| == 0 then default
    else if Contains(text, rules[0].keyword) then rules[0].name
    else
      var rest := FirstMatch(rules[1..], text, default);
      assert forall k :: 1 <= k < |rules| ==> rules[k] == rules[1..][k - 1];
      rest
  }

  /** The labels a table can give: its own and the default. */
  function Labels(rules: seq<Rule>, default: string): set<string> {
    (set k | 0 <= k < |rules| :: rules[k].name) + {default}
  }

  lemma {:induction false} FirstMatchLabel(rules: seq<Rule>, text: string, default: string)
    ensures FirstMatch(rules, text, default) in Labels(rules, default)
  {
    if exists k :: 0 <= k < |rules| && Contains(text, rules[k].keyword) {
      var k :| 0 <= k < |rules| && Contains(text, rules[k].keyword) &&
               FirstMatch(rules, text, default) == rules[k].name;
      assert rules[k].name in (set k | 0 <= k < |rules| :: rules[k].name);
    }
  }
}
