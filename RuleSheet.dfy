/**
 * The rules sheet (07_html_excel_rule_extraction/extract_rules.py): every `<div class="rule">`
 * block whose `<h3>` heading reads "R<digits> <name>" gives a row of its id, its name, its
 * formula and a category guessed from the name. Nothing in the script catches an error, so a
 * rule block without a formula, or a file that cannot be opened, ends the whole run.
 */
module RuleSheet {
  import opened Options
  import opened Strings
  import opened Keywords
  import opened Flatten
  import opened Html
  import opened Patterns
  import opened SheetLayout

  /** `categorize_rule`'s table in dictionary order; each keyword is looked for as written, case and all. */
  const RuleCategories: seq<Rule> := [Rule("Queue", "Queue Rule"), Rule("Page", "Page Rule"), Rule("Component", "Component"),
                                      Rule("Document", "Document Rule"), Rule("Design", "Page Design")]
  const Uncategorized := "Uncategorized"

  /** The six categories `categorize_rule` can give. */
  const RuleLabels := {"Queue Rule", "Page Rule", "Component", "Document Rule", "Page Design", "Uncategorized"}

  /** `categorize_rule(rule_name)` */
  function CategorizeRule(name: string): string {
    FirstMatch(RuleCategories, name, Uncategorized)
  }

  /** The category is always one of the six labels. */
  lemma CategorizeRuleLabel(name: string)
    ensures CategorizeRule(name) in RuleLabels
  {
    if exists k :: 0 <= k < |RuleCategories| && Contains(name, RuleCategories[k].keyword) {
      var k :| 0 <= k < |RuleCategories| && CategorizeRule(name) == RuleCategories[k].name;
    }
  }

  /** A name is Uncategorized exactly when none of the five keywords occurs in it as written. */
  lemma CategorizeRuleDefault(name: string)
    ensures CategorizeRule(name) == Uncategorized
            <==> forall k :: 0 <= k < |RuleCategories| ==> !Contains(name, RuleCategories[k].keyword)
  {
    if exists k :: 0 <= k < |RuleCategories| && Contains(name, RuleCategories[k].keyword) {
      var k :| 0 <= k < |RuleCategories| && CategorizeRule(name) == RuleCategories[k].name;
      assert RuleCategories[k].name != Uncategorized;
    }
  }

  /**
   * "Page Design" is given only to a name that mentions "Design" and none of "Queue", "Page",
   * "Component" or "Document": a "Page Design" rule is filed as a "Page Rule".
   */
  lemma PageDesignNeedsDesignOnly(name: string)
    ensures CategorizeRule(name) == "Page Design" <==>
            Contains(name, "Design") && forall k :: 0 <= k < 4 ==> !Contains(name, RuleCategories[k].keyword)
  {
    var text := name;
    if exists k :: 0 <= k < |RuleCategories| && Contains(text, RuleCategories[k].keyword) {
      var k :| 0 <= k < |RuleCategories| && Contains(text, RuleCategories[k].keyword) && CategorizeRule(name) == RuleCategories[k].name
               && forall k' :: 0 <= k' < k ==> !Contains(text, RuleCategories[k'].keyword);
      if k < 4 {
        assert CategorizeRule(name) != "Page Design";
      } else {
        assert RuleCategories[k].keyword == "Design";
      }
    } else {
      assert !Contains(text, RuleCategories[4].keyword);
    }
  }

  datatype Row = Row(id: string, name: string, formula: string, category: string)

  /** `parse_rule_name(heading)`: the id and name of heading element h, when its stripped text reads "R<digits> <name>". */
  function ParseRuleName(doc: Document, h: nat): Option<(string, string)>
    requires h < |doc|
  {
    CodeSpaceRest(TextStrip(doc[h]))
  }

  /**
   * The id and name of block i's heading: None without an `<h3>`, for a heading that starts
   * "F<digit>", and for one that does not parse.
   */
  function RuleHeading(doc: Document, i: nat): Option<(string, string)>
    requires i < |doc|
  {
    match Find(doc, i, Tag("h3"))
    case None => None
    case Some(h) => if StartsCoded(TextStrip(doc[h]), 'F') then None else ParseRuleName(doc, h)
  }

  /**
   * What block i adds to `rules_data`: nothing unless its heading parses; the row when the block
   * also has a formula `<div>`; and None, the `AttributeError` of `.get_text` on `None`, when it lacks one.
   */
  function BlockRule(doc: Document, i: nat): Option<seq<Row>> {
    if i >= |doc| || RuleHeading(doc, i).None? then Some([])
    else
      var (id, name) := RuleHeading(doc, i).value;
      match Find(doc, i, FormulaQuery)
      case None => None
      case Some(f) => Some([Row(id, name, Strip(TextSep(doc[f], "\n")), CategorizeRule(name))])
  }

  /** The block step as the function the block loop folds over the block list. */
  function BlockRules(doc: Document): nat -> Option<seq<Row>> {
    (i: nat) => BlockRule(doc, i)
  }

  /** `extract_rules_from_html` on a parsed page: its rows in block order, or None when a block raises. */
  function PageRules(doc: Document): Option<seq<Row>> {
    FlatAll(FindAll(doc, RuleQuery), BlockRules(doc))
  }

  /** A rule block with a parsed heading and no formula `<div>`: the block that makes the page raise. */
  predicate MissingFormula(doc: Document, i: nat)
    requires i < |doc|
  {
    RuleHeading(doc, i).Some? && Find(doc, i, FormulaQuery).None?
  }

  /** The body of the block loop. */
  method RuleOfBlock(doc: Document, i: nat) returns (r: Option<seq<Row>>)
    requires i < |doc|
    ensures r == BlockRule(doc, i)
  {
    r := Some([]);
    var heading := Find(doc, i, Tag("h3"));
    if heading.Some? {
      var text := TextStrip(doc[heading.value]);
      if !StartsCoded(text, 'F') {
        var parsed := CodeSpaceRest(text);
        if parsed.Some? {
          assert RuleHeading(doc, i) == parsed;
          var (id, name) := parsed.value;
          var formula := Find(doc, i, FormulaQuery);
          if formula.None? {
            return None;
          }
          r := Some([Row(id, name, Strip(TextSep(doc[formula.value], "\n")), CategorizeRule(name))]);
        }
      }
    }
  }

  /**
   * `extract_rules_from_html(file_path)`: None when the file cannot be opened or a block raises,
   * else the rows of the page read with undecodable bytes replaced.
   */
  method ExtractRulesFromHtml(src: Source) returns (rows: Option<seq<Row>>)
    ensures src.Unopenable? ==> rows.None?
    ensures Readable(src).Some? ==> rows == PageRules(Readable(src).value)
  {
    var page := Readable(src);
    if page.None? {
      return None;
    }
    rows := RulesOfPage(page.value);
  }

  /** The block loop of `extract_rules_from_html`. */
  method RulesOfPage(doc: Document) returns (rows: Option<seq<Row>>)
    ensures rows == PageRules(doc)
  {
    var blocks := FindAll(doc, RuleQuery);
    FindAllToSound(doc, RuleQuery, |doc|);
    var found: seq<Row> := [];
    var k := 0;
    while k < |blocks|
      invariant k <= |blocks| && FlatAllTo(blocks, BlockRules(doc), k) == Some(found)
    {
      var r := RuleOfBlock(doc, blocks[k]);
      if r.None? {
        FlatAllRaised(blocks, BlockRules(doc), k);
        return None;
      }
      FlatAllToStep(blocks, BlockRules(doc), k, found, r.value);
      found := found + r.value;
      k := k + 1;
    }
    rows := Some(found);
  }

  /** A page raises exactly when one of its rule blocks has a parsed heading and no formula `<div>`. */
  lemma PageRulesRaise(doc: Document)
    ensures PageRules(doc).None? <==> exists i :: 0 <= i < |doc| && Matches(doc[i], RuleQuery) && MissingFormula(doc, i)
  {
    var blocks := FindAll(doc, RuleQuery);
    FlatAllToNone(blocks, BlockRules(doc), |blocks|);
    FindAllToSound(doc, RuleQuery, |doc|);
    if i :| 0 <= i < |doc| && Matches(doc[i], RuleQuery) && MissingFormula(doc, i) {
      FindAllToComplete(doc, RuleQuery, |doc|, i);
      var k :| 0 <= k < |blocks| && blocks[k] == i;
      assert BlockRules(doc)(blocks[k]).None?;
    }
  }

  /** A block adds at most one row. */
  lemma BlockRuleSingle(doc: Document, i: nat)
    ensures BlockRule(doc, i).Some? ==> |BlockRule(doc, i).value| <= 1
  {
  }

  /** Every row of a page that does not raise comes from one of its rule blocks... */
  lemma PageRowSource(doc: Document, row: Row) returns (i: nat)
    requires PageRules(doc).Some? && row in PageRules(doc).value
    ensures i < |doc| && Matches(doc[i], RuleQuery) && BlockRule(doc, i) == Some([row])
  {
    var blocks := FindAll(doc, RuleQuery);
    FlatAllToMember(blocks, BlockRules(doc), |blocks|, row);
    FindAllToSound(doc, RuleQuery, |doc|);
    var k :| 0 <= k < |blocks| && BlockRules(doc)(blocks[k]).Some? && row in BlockRules(doc)(blocks[k]).value;
    i := blocks[k];
    var r := BlockRule(doc, i).value;
    BlockRuleSingle(doc, i);
    assert r == [r[0]] && r[0] == row;
  }

  /** ...and every rule block's row is on the page. */
  lemma PageRowRecorded(doc: Document, row: Row, i: nat)
    requires PageRules(doc).Some? && i < |doc| && Matches(doc[i], RuleQuery) && BlockRule(doc, i) == Some([row])
    ensures row in PageRules(doc).value
  {
    var blocks := FindAll(doc, RuleQuery);
    FlatAllToMember(blocks, BlockRules(doc), |blocks|, row);
    FindAllToComplete(doc, RuleQuery, |doc|, i);
    var k :| 0 <= k < |blocks| && blocks[k] == i;
    assert row in BlockRules(doc)(blocks[k]).value;
  }

  /** When a page does not raise, its rows are exactly those of its rule blocks. */
  lemma PageRulesFrom(doc: Document, row: Row)
    requires PageRules(doc).Some?
    ensures row in PageRules(doc).value <==>
            exists i :: 0 <= i < |doc| && Matches(doc[i], RuleQuery) && BlockRule(doc, i) == Some([row])
  {
    if row in PageRules(doc).value {
      var i := PageRowSource(doc, row);
    }
    if i :| 0 <= i < |doc| && Matches(doc[i], RuleQuery) && BlockRule(doc, i) == Some([row]) {
      PageRowRecorded(doc, row, i);
    }
  }

  /**
   * A row's id is "R" and a run of digits, its name carries no newline and does not start with
   * whitespace, its formula is stripped, and its category is the one its name gives.
   */
  lemma RowShape(doc: Document, i: nat, row: Row)
    requires BlockRule(doc, i) == Some([row])
    ensures |row.id| >= 2 && row.id[0] == 'R' && AllDigits(row.id[1..])
    ensures '\n' !in row.name && (|row.name| == 0 || !IsSpace(row.name[0]))
    ensures |row.formula| == 0 || Clean(row.formula)
    ensures row.category == CategorizeRule(row.name) && row.category in RuleLabels
  {
    var h := Find(doc, i, Tag("h3")).value;
    var space, tail := CodeSpaceRestSplits(TextStrip(doc[h]));
    var f := Find(doc, i, FormulaQuery).value;
    StripClean(TextSep(doc[f], "\n"));
    CategorizeRuleLabel(row.name);
  }

  /**
   * A rule block whose heading reads "R" + digits, whitespace and a name, and which has a
   * formula, gives exactly that id and name, with the formula's text stripped.
   */
  lemma HeadingGivesRow(doc: Document, i: nat, digits: string, space: string, name: string, tail: string)
    requires i < |doc| && Find(doc, i, Tag("h3")).Some? && Find(doc, i, FormulaQuery).Some?
    requires TextStrip(doc[Find(doc, i, Tag("h3")).value]) == "R" + digits + space + name + tail
    requires RuleNameParts(digits, space, name, tail)
    ensures BlockRule(doc, i) ==
            Some([Row("R" + digits, name, Strip(TextSep(doc[Find(doc, i, FormulaQuery).value], "\n")), CategorizeRule(name))])
  {
    CodeSpaceRestRoundTrip(digits, space, name, tail);
    assert ("R" + digits + space + name + tail)[0] == 'R';
  }

  /** The rows of one listed file: none unless its name ends in ".html" or ".htm"; None when it raises. */
  function FileRules(f: FileEntry): Option<seq<Row>> {
    if !HtmlName(f.name) then Some([])
    else
      match Readable(f.source)
      case None => None
      case Some(doc) => PageRules(doc)
  }

  /** `all_rules` after the walk, or None when one of the files raised. */
  function AllRules(files: seq<FileEntry>): Option<seq<Row>> {
    FlatAll(files, FileRules)
  }

  /** The run raises exactly when one of the ".html"/".htm" files cannot be opened or its page raises. */
  lemma AllRulesRaise(files: seq<FileEntry>)
    ensures AllRules(files).None? <==>
            exists i :: 0 <= i < |files| && HtmlName(files[i].name) && (files[i].source.Unopenable? || PageRules(Readable(files[i].source).value).None?)
  {
    FlatAllToNone(files, FileRules, |files|);
  }

  /** When the run does not raise, the report's rows are those of the ".html"/".htm" files that parse. */
  lemma AllRulesFrom(files: seq<FileEntry>, row: Row)
    requires AllRules(files).Some?
    ensures row in AllRules(files).value <==>
            exists i :: 0 <= i < |files| && HtmlName(files[i].name) && Readable(files[i].source).Some?
                        && PageRules(Readable(files[i].source).value).Some? && row in PageRules(Readable(files[i].source).value).value
  {
    FlatAllToMember(files, FileRules, |files|, row);
  }

  /** One file of the walk: skipped unless its name ends in ".html" or ".htm", extracted otherwise. */
  method ProcessFile(f: FileEntry) returns (rows: Option<seq<Row>>)
    ensures rows == FileRules(f)
  {
    rows := Some([]);
    if HtmlName(f.name) {
      rows := ExtractRulesFromHtml(f.source);
    }
  }

  /** The walk of `process_rules`: `all_rules` after every ".html"/".htm" file, or None once one raises. */
  method CollectRules(files: seq<FileEntry>) returns (all: Option<seq<Row>>)
    ensures all == AllRules(files)
  {
    var allRules: seq<Row> := [];
    var k := 0;
    while k < |files|
      invariant k <= |files| && FlatAllTo(files, FileRules, k) == Some(allRules)
    {
      var extracted := ProcessFile(files[k]);
      if extracted.None? {
        FlatAllRaised(files, FileRules, k);
        return None;
      }
      FlatAllToStep(files, FileRules, k, allRules, extracted.value);
      allRules := allRules + extracted.value;
      k := k + 1;
    }
    all := Some(allRules);
  }

  const Headers := ["Rule ID", "Rule Name", "Formula", "Category"]

  /** The cells `sheet.append(row)` writes for a row. */
  function Cells(r: Row): seq<string> {
    [r.id, r.name, r.formula, r.category]
  }

  /** The sheet `write_to_excel` fills: the header row, then one row per rule in order. */
  function SheetOf(rows: seq<Row>): (sheet: seq<seq<string>>)
    ensures |sheet| == |rows| + 1 && sheet[0] == Headers
    ensures forall j :: 0 <= j < |rows| ==> sheet[j + 1] == Cells(rows[j])
  {
    [Headers] + seq(|rows|, j requires 0 <= j < |rows| => Cells(rows[j]))
  }

  /** The sheet has exactly the four columns of its header. */
  lemma SheetColumns(rows: seq<Row>)
    ensures Columns(SheetOf(rows)) == 4
  {
    var sheet := SheetOf(rows);
    assert forall r :: 0 <= r < |sheet| ==> |sheet[r]| == 4 by {
      forall r | 0 <= r < |sheet|
        ensures |sheet[r]| == 4
      {
        if r > 0 {
          assert sheet[r] == Cells(rows[r - 1]);
        }
      }
    }
  }

  datatype Run = Raised | NoRules | Written(sheet: seq<seq<string>>, widths: seq<nat>)

  /**
   * `process_rules(input_folder, output_file)`: the ".html"/".htm" files are read in listing
   * order; the run raises when one of them does; otherwise the sheet is written, with its
   * columns fitted, exactly when a rule was found.
   */
  method ProcessRules(files: seq<FileEntry>) returns (run: Run)
    ensures run.Raised? <==> AllRules(files).None?
    ensures run.NoRules? <==> AllRules(files) == Some([])
    ensures run.Written? ==> AllRules(files).Some? && run.sheet == SheetOf(AllRules(files).value)
    ensures run.Written? ==> |run.widths| == 4
    ensures run.Written? ==> forall c :: 0 <= c < 4 ==> run.widths[c] == FitWidth(LongestTo(run.sheet, c, |run.sheet|))
  {
    var all := CollectRules(files);
    if all.None? {
      return Raised;
    }
    var allRules := all.value;
    if |allRules| > 0 {
      var sheet := SheetOf(allRules);
      var widths := AutoFitColumns(sheet);
      SheetColumns(allRules);
      run := Written(sheet, widths);
    } else {
      run := NoRules;
    }
  }
}
