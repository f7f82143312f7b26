/**
 * The rules-and-formulas sheet of one page (07_html_excel_rule_extraction/script.py): every
 * `<div class="rule">` block with both an `<h3>` heading and a formula `<div>` gives a row of
 * the id and title read off the heading, the formula's stripped lines, and a category guessed
 * from the heading ignoring case. Any error ends the run quietly, with nothing written.
 */
module RuleFormula {
  import opened Options
  import opened Strings
  import opened Keywords
  import opened Flatten
  import opened Html
  import opened Patterns

  /** `CATEGORIES` in dictionary order, with each keyword lowered as `keyword.lower()` does. */
  const Categories: seq<Rule> := [Rule("queue", "Queue Rule"), Rule("page", "Page Rule"), Rule("component", "Component Rule"),
                                  Rule("document", "Document Rule"), Rule("function", "Function")]
  const UnknownCategory := "Unknown"

  /** The six categories `categorize_rule` can give. */
  const CategoryLabels := {"Queue Rule", "Page Rule", "Component Rule", "Document Rule", "Function", "Unknown"}

  /** `categorize_rule(rule_name)`: keywords are looked for in the lowered name. */
  function CategorizeRule(name: string): string {
    FirstMatch(Categories, Lower(name), UnknownCategory)
  }

  /** The category is always one of the six labels. */
  lemma CategorizeRuleLabel(name: string)
    ensures CategorizeRule(name) in CategoryLabels
  {
    var text := Lower(name);
    if exists k :: 0 <= k < |Categories| && Contains(text, Categories[k].keyword) {
      var k :| 0 <= k < |Categories| && CategorizeRule(name) == Categories[k].name;
    }
  }

  /** A name is Unknown exactly when none of the five keywords occurs in it, in any case. */
  lemma CategorizeRuleDefault(name: string)
    ensures CategorizeRule(name) == UnknownCategory
            <==> forall k :: 0 <= k < |Categories| ==> !Contains(Lower(name), Categories[k].keyword)
  {
    var text := Lower(name);
    if exists k :: 0 <= k < |Categories| && Contains(text, Categories[k].keyword) {
      var k :| 0 <= k < |Categories| && CategorizeRule(name) == Categories[k].name;
      assert Categories[k].name != UnknownCategory;
    }
  }

  /** Case does not matter: a name and its lowered form get the same category. */
  lemma CategoryIgnoresCase(name: string)
    ensures CategorizeRule(Lower(name)) == CategorizeRule(name)
  {
    LowerIdempotent(name);
  }

  /** `(rule_id, rule_title, formula_text, category)` */
  datatype Entry = Entry(id: string, title: string, formula: string, category: string)

  /** The id and title of a heading: those `(R\d+|F\d+)\s*(.*)` captures, or "UNKNOWN" and the whole heading. */
  function SplitHeading(name: string): (string, string) {
    match CodeRest(name)
    case Some(parts) => parts
    case None => ("UNKNOWN", name)
  }

  /** What block i adds: a row when it has both an `<h3>` and a formula `<div>`, nothing otherwise. */
  function BlockEntry(doc: Document, i: nat): seq<Entry> {
    if i >= |doc| || Find(doc, i, Tag("h3")).None? || Find(doc, i, FormulaQuery).None? then []
    else
      var name := TextStrip(doc[Find(doc, i, Tag("h3")).value]);
      var (id, title) := SplitHeading(name);
      [Entry(id, title, TextSepStrip(doc[Find(doc, i, FormulaQuery).value], "\n"), CategorizeRule(name))]
  }

  /** The block step as the function the block loop folds over the block list. */
  function BlockEntries(doc: Document): nat -> seq<Entry> {
    (i: nat) => BlockEntry(doc, i)
  }

  /** `extract_rule_and_formula(soup)`: the rows of the rule blocks in document order. */
  function PageEntries(doc: Document): seq<Entry> {
    Flat(FindAll(doc, RuleQuery), BlockEntries(doc))
  }

  /** The body of the block loop. */
  method EntryOfBlock(doc: Document, i: nat) returns (rows: seq<Entry>)
    requires i < |doc|
    ensures rows == BlockEntry(doc, i)
  {
    rows := [];
    var header := Find(doc, i, Tag("h3"));
    var formula := Find(doc, i, FormulaQuery);
    if header.Some? && formula.Some? {
      var name := TextStrip(doc[header.value]);
      var category := CategorizeRule(name);
      var text := TextSepStrip(doc[formula.value], "\n");
      var m := CodeRest(name);
      var (id, title) := if m.Some? then m.value else ("UNKNOWN", name);
      rows := [Entry(id, title, text, category)];
    }
  }

  /** The block loop of `extract_rule_and_formula`. */
  method ExtractRuleAndFormula(doc: Document) returns (rows: seq<Entry>)
    ensures rows == PageEntries(doc)
  {
    var blocks := FindAll(doc, RuleQuery);
    FindAllToSound(doc, RuleQuery, |doc|);
    rows := [];
    var k := 0;
    while k < |blocks|
      invariant k <= |blocks| && rows == FlatTo(blocks, BlockEntries(doc), k)
    {
      var r := EntryOfBlock(doc, blocks[k]);
      rows := rows + r;
      k := k + 1;
    }
  }

  /** Every row of a page comes from one of its rule blocks that has both a heading and a formula... */
  lemma EntrySource(doc: Document, row: Entry) returns (i: nat)
    requires row in PageEntries(doc)
    ensures i < |doc| && Matches(doc[i], RuleQuery) && Find(doc, i, Tag("h3")).Some? && Find(doc, i, FormulaQuery).Some?
    ensures BlockEntry(doc, i) == [row]
  {
    var blocks := FindAll(doc, RuleQuery);
    FlatToMember(blocks, BlockEntries(doc), |blocks|, row);
    FindAllToSound(doc, RuleQuery, |doc|);
    var k :| 0 <= k < |blocks| && row in BlockEntries(doc)(blocks[k]);
    i := blocks[k];
  }

  /** ...and every such block gives its row. */
  lemma EntryRecorded(doc: Document, i: nat)
    requires i < |doc| && Matches(doc[i], RuleQuery) && Find(doc, i, Tag("h3")).Some? && Find(doc, i, FormulaQuery).Some?
    ensures |BlockEntry(doc, i)| == 1 && BlockEntry(doc, i)[0] in PageEntries(doc)
  {
    var blocks := FindAll(doc, RuleQuery);
    var row := BlockEntry(doc, i)[0];
    FlatToMember(blocks, BlockEntries(doc), |blocks|, row);
    FindAllToComplete(doc, RuleQuery, |doc|, i);
    var k :| 0 <= k < |blocks| && blocks[k] == i;
    assert row in BlockEntries(doc)(blocks[k]);
  }

  /**
   * A heading that reads "R" or "F", digits, optional whitespace and a title gives exactly that
   * id and title; one that does not start that way gives "UNKNOWN" and the whole heading.
   */
  lemma SplitHeadingRoundTrip(letter: char, digits: string, space: string, title: string, tail: string)
    requires letter == 'R' || letter == 'F'
    requires CodeParts(digits, space, title, tail)
    ensures SplitHeading([letter] + digits + space + title + tail) == ([letter] + digits, title)
  {
    CodeRestRoundTrip(letter, digits, space, title, tail);
  }

  lemma SplitHeadingUnknown(name: string)
    requires !StartsCoded(name, 'R') && !StartsCoded(name, 'F')
    ensures SplitHeading(name) == ("UNKNOWN", name)
  {
  }

  /**
   * Every row's id is "UNKNOWN" or a code: "R" or "F" and digits that start its heading; its
   * formula neither starts nor ends with whitespace; its category comes from the whole heading.
   */
  lemma EntryShape(doc: Document, i: nat)
    requires i < |doc| && |BlockEntry(doc, i)| > 0
    ensures var row := BlockEntry(doc, i)[0];
            var name := TextStrip(doc[Find(doc, i, Tag("h3")).value]);
            && (row.id == "UNKNOWN" || (|row.id| >= 2 && (row.id[0] == 'R' || row.id[0] == 'F')
                                        && AllDigits(row.id[1..]) && StartsWith(name, row.id)))
            && (|row.formula| == 0 || Clean(row.formula))
            && row.category == CategorizeRule(name) && row.category in CategoryLabels
  {
    var name := TextStrip(doc[Find(doc, i, Tag("h3")).value]);
    if CodeRest(name).Some? {
      var space, tail := CodeRestSplits(name);
      var id := CodeRest(name).value.0;
      assert name[..|id|] == id;
    }
    StrippedTextIsStripped(doc[Find(doc, i, FormulaQuery).value], "\n");
    CategorizeRuleLabel(name);
  }

  const Headers := ["Rule ID", "Rule Name", "Formula", "Category"]

  /** The sheet `write_to_excel` fills: the header row, then one row per entry in order. */
  function SheetOf(rows: seq<Entry>): (sheet: seq<seq<string>>)
    ensures |sheet| == |rows| + 1 && sheet[0] == Headers
    ensures forall j :: 0 <= j < |rows| ==> sheet[j + 1] == [rows[j].id, rows[j].title, rows[j].formula, rows[j].category]
  {
    [Headers] + seq(|rows|, j requires 0 <= j < |rows| => [rows[j].id, rows[j].title, rows[j].formula, rows[j].category])
  }

  datatype Run = Failed | NoData | Written(sheet: seq<seq<string>>, widths: seq<nat>)

  /**
   * `process_html_file(input_file, output_excel)`: a file that cannot be opened ends the run with
   * nothing written; otherwise the page, read with undecodable bytes dropped, is written, every
   * column 50 wide, exactly when it has a row.
   */
  method ProcessHtmlFile(src: Source) returns (run: Run)
    ensures run.Failed? <==> src.Unopenable?
    ensures run.NoData? <==> Readable(src).Some? && |PageEntries(Readable(src).value)| == 0
    ensures run.Written? ==> run.sheet == SheetOf(PageEntries(Readable(src).value)) && run.widths == [50, 50, 50, 50]
  {
    var page := Readable(src);
    if page.None? {
      return Failed;
    }
    var rows := ExtractRuleAndFormula(page.value);
    if |rows| > 0 {
      run := Written(SheetOf(rows), [50, 50, 50, 50]);
    } else {
      run := NoData;
    }
  }
}
