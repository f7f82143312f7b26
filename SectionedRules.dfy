/**
 * The rules-and-functions report (07_html_excel_rule_extraction/code/extract_rules.py): every
 * `<div align="left">` block of a page is routed by the nearest `<p>` before it. A block under
 * a "Rules List" paragraph that carries a `#Rule<n>` tag gives a rule row; a block under a
 * "Function List" paragraph that carries a `#Function<n>` tag gives a function row. The rows
 * of all listed ".html"/".htm" files are put together and reported when there are any.
 */
module SectionedRules {
  import opened Options
  import opened Strings
  import opened Keywords
  import opened Flatten
  import opened Html
  import opened Patterns

  /** The category patterns in table order, each searched ignoring case, and the default category. */
  const CategoryPatterns: seq<Rule> := [Rule("queue", "Queue"), Rule("component", "Component"), Rule("page", "Page Rule"),
                                        Rule("banner", "Banner"), Rule("batch", "Batch"), Rule("document", "Document Rule")]
  const DefaultCategory := "Page Design"

  /** `classify_category(name)` */
  function ClassifyCategory(name: string): string {
    FirstMatch(CategoryPatterns, Lower(name), DefaultCategory)
  }

  /** The seven categories `classify_category` can give. */
  const CategoryLabels := {"Queue", "Component", "Page Rule", "Banner", "Batch", "Document Rule", "Page Design"}

  /** The category is always one of the seven labels. */
  lemma ClassifyCategoryLabel(name: string)
    ensures ClassifyCategory(name) in CategoryLabels
  {
    var text := Lower(name);
    if exists k :: 0 <= k < |CategoryPatterns| && Contains(text, CategoryPatterns[k].keyword) {
      var k :| 0 <= k < |CategoryPatterns| && ClassifyCategory(name) == CategoryPatterns[k].name;
    }
  }

  /** The category is the default exactly when no pattern occurs in the name, in any case. */
  lemma ClassifyCategoryDefault(name: string)
    ensures ClassifyCategory(name) == DefaultCategory
            <==> forall k :: 0 <= k < |CategoryPatterns| ==> !Contains(Lower(name), CategoryPatterns[k].keyword)
  {
    var text := Lower(name);
    if exists k :: 0 <= k < |CategoryPatterns| && Contains(text, CategoryPatterns[k].keyword) {
      var k :| 0 <= k < |CategoryPatterns| && ClassifyCategory(name) == CategoryPatterns[k].name;
      assert CategoryPatterns[k].name != DefaultCategory;
    }
  }

  /** A name that mentions "queue" in any case is a Queue whatever else it mentions. */
  lemma ClassifyCategoryQueue(name: string)
    ensures Contains(Lower(name), "queue") ==> ClassifyCategory(name) == "Queue"
  {
  }

  datatype RuleRow = RuleRow(id: string, name: string, formula: string, category: string)
  datatype FunctionRow = FunctionRow(id: string, name: string, formula: string)

  /** The blocks `soup.find_all('div', align='left')` gives. */
  const BlockQuery := Query("div", None, Some("left"))

  /** `block.find('strong').get_text(strip=True)`, or "Unknown" when the block has no `<strong>`. */
  function ItemName(doc: Document, i: nat): string
    requires i < |doc|
  {
    match Find(doc, i, Tag("strong"))
    case None => "Unknown"
    case Some(j) => TextStrip(doc[j])
  }

  /** `extract_formula(block)`: the text of the block's first `<pre>` as it stands, or "No formula found". */
  function ExtractFormula(doc: Document, i: nat): string
    requires i < |doc|
  {
    match Find(doc, i, Tag("pre"))
    case None => "No formula found"
    case Some(j) => Text(doc[j])
  }

  /** `extract_rules(block)`: a rule row when the block's markup carries `#Rule<digits>` in any case. */
  function ExtractRule(doc: Document, i: nat): Option<RuleRow>
    requires i < |doc|
  {
    match TaggedNumber(doc[i].markup, "#rule")
    case None => None
    case Some(id) =>
      var name := ItemName(doc, i);
      Some(RuleRow(id, name, ExtractFormula(doc, i), ClassifyCategory(name)))
  }

  /** `extract_functions(block)`: a function row when the block's markup carries `#Function<digits>` in any case. */
  function ExtractFunction(doc: Document, i: nat): Option<FunctionRow>
    requires i < |doc|
  {
    match TaggedNumber(doc[i].markup, "#function")
    case None => None
    case Some(id) => Some(FunctionRow(id, ItemName(doc, i), ExtractFormula(doc, i)))
  }

  /** The section of block i: the stripped, lower-cased text of the nearest `<p>` before it, or "". */
  function SectionName(doc: Document, i: nat): string
    requires i < |doc|
  {
    match FindPrevious(doc, i, "p")
    case None => ""
    case Some(j) => Lower(TextStrip(doc[j]))
  }

  /** A block goes to the rules when its section mentions "rules list"... */
  predicate InRules(doc: Document, i: nat)
    requires i < |doc|
  {
    Contains(SectionName(doc, i), "rules list")
  }

  /** ...and otherwise to the functions when it mentions "function list". */
  predicate InFunctions(doc: Document, i: nat)
    requires i < |doc|
  {
    !InRules(doc, i) && Contains(SectionName(doc, i), "function list")
  }

  /** The rule row block i adds. */
  function RulesAt(doc: Document, i: nat): seq<RuleRow> {
    if i < |doc| && InRules(doc, i) then
      match ExtractRule(doc, i)
      case None => []
      case Some(r) => [r]
    else []
  }

  /** The function row block i adds. */
  function FunctionsAt(doc: Document, i: nat): seq<FunctionRow> {
    if i < |doc| && InFunctions(doc, i) then
      match ExtractFunction(doc, i)
      case None => []
      case Some(r) => [r]
    else []
  }

  /** The rows each block adds, as the functions the block loop folds over the block list. */
  function RuleRows(doc: Document): nat -> seq<RuleRow> {
    (i: nat) => RulesAt(doc, i)
  }

  function FunctionRows(doc: Document): nat -> seq<FunctionRow> {
    (i: nat) => FunctionsAt(doc, i)
  }

  /** Block i adds its rule row when routed to the rules, and its function row when routed to the functions. */
  lemma RouteStep(doc: Document, i: nat)
    requires i < |doc|
    ensures RulesAt(doc, i) == if InRules(doc, i) && ExtractRule(doc, i).Some? then [ExtractRule(doc, i).value] else []
    ensures FunctionsAt(doc, i) == if InFunctions(doc, i) && ExtractFunction(doc, i).Some? then [ExtractFunction(doc, i).value] else []
    ensures InFunctions(doc, i) ==> !InRules(doc, i)
  {
  }

  /** The body of the block loop: the section of block i decides whether it is tried as a rule or as a function. */
  method RouteBlock(doc: Document, i: nat) returns (rule: seq<RuleRow>, fn: seq<FunctionRow>)
    requires i < |doc|
    ensures rule == RulesAt(doc, i) && fn == FunctionsAt(doc, i)
  {
    rule, fn := [], [];
    var section := SectionName(doc, i);
    if Contains(section, "rules list") {
      var r := ExtractRule(doc, i);
      if r.Some? {
        rule := [r.value];
      }
    } else if Contains(section, "function list") {
      var f := ExtractFunction(doc, i);
      if f.Some? {
        fn := [f.value];
      }
    }
  }

  /** The rules and functions of a file that does not raise. */
  function PageRules(doc: Document): seq<RuleRow> {
    var blocks := FindAll(doc, BlockQuery);
    Flat(blocks, RuleRows(doc))
  }

  function PageFunctions(doc: Document): seq<FunctionRow> {
    var blocks := FindAll(doc, BlockQuery);
    Flat(blocks, FunctionRows(doc))
  }

  /**
   * `process_html_file(html_file)`: a file that cannot be opened gives no rows; otherwise, read
   * as ISO-8859-1, which decodes every byte, each block is routed in document order.
   */
  method ProcessHtmlFile(src: Source) returns (rules: seq<RuleRow>, functions: seq<FunctionRow>)
    ensures Readable(src).None? ==> rules == [] && functions == []
    ensures Readable(src).Some? ==> rules == PageRules(Readable(src).value) && functions == PageFunctions(Readable(src).value)
  {
    var page := Readable(src);
    if page.None? {
      return [], [];
    }
    rules, functions := RowsOfPage(page.value);
  }

  /** The block loop of `process_html_file`. */
  method RowsOfPage(doc: Document) returns (rules: seq<RuleRow>, functions: seq<FunctionRow>)
    ensures rules == PageRules(doc) && functions == PageFunctions(doc)
  {
    var blocks := FindAll(doc, BlockQuery);
    FindAllToSound(doc, BlockQuery, |doc|);
    rules, functions := [], [];
    var k := 0;
    while k < |blocks|
      invariant k <= |blocks|
      invariant rules == FlatTo(blocks, RuleRows(doc), k) && functions == FlatTo(blocks, FunctionRows(doc), k)
    {
      var i := blocks[k];
      var rule, fn := RouteBlock(doc, i);
      rules, functions := rules + rule, functions + fn;
      k := k + 1;
    }
  }

  /**
   * A rule row of a page comes from a `<div align="left">` block under a "rules list" section
   * whose markup carries a rule tag, and every such block gives its row.
   */
  lemma PageRulesFrom(doc: Document, row: RuleRow)
    ensures row in PageRules(doc) <==>
            exists i :: 0 <= i < |doc| && Matches(doc[i], BlockQuery) && InRules(doc, i) && ExtractRule(doc, i) == Some(row)
  {
    var blocks := FindAll(doc, BlockQuery);
    FlatToMember(blocks, RuleRows(doc), |blocks|, row);
    FindAllToSound(doc, BlockQuery, |doc|);
    if i :| 0 <= i < |doc| && Matches(doc[i], BlockQuery) && InRules(doc, i) && ExtractRule(doc, i) == Some(row) {
      FindAllToComplete(doc, BlockQuery, |doc|, i);
      var k :| 0 <= k < |blocks| && blocks[k] == i;
      assert row in RulesAt(doc, blocks[k]);
    }
  }

  /**
   * A function row of a page comes from a block under a "function list" section that is not
   * also a "rules list" one, whose markup carries a function tag; and every such block gives its row.
   */
  lemma PageFunctionsFrom(doc: Document, row: FunctionRow)
    ensures row in PageFunctions(doc) <==>
            exists i :: 0 <= i < |doc| && Matches(doc[i], BlockQuery) && InFunctions(doc, i) && ExtractFunction(doc, i) == Some(row)
  {
    var blocks := FindAll(doc, BlockQuery);
    FlatToMember(blocks, FunctionRows(doc), |blocks|, row);
    FindAllToSound(doc, BlockQuery, |doc|);
    if i :| 0 <= i < |doc| && Matches(doc[i], BlockQuery) && InFunctions(doc, i) && ExtractFunction(doc, i) == Some(row) {
      FindAllToComplete(doc, BlockQuery, |doc|, i);
      var k :| 0 <= k < |blocks| && blocks[k] == i;
      assert row in FunctionsAt(doc, blocks[k]);
    }
  }

  /** A block routed to the rules gives no function row, whatever its markup. */
  lemma RulesTakePriority(doc: Document, i: nat)
    requires i < |doc| && Contains(SectionName(doc, i), "rules list") && Contains(SectionName(doc, i), "function list")
    ensures |FunctionsAt(doc, i)| == 0
    ensures TaggedNumber(doc[i].markup, "#rule").Some? ==> |RulesAt(doc, i)| == 1
  {
  }

  /**
   * Every rule row carries the leftmost `#Rule` tag's whole, non-empty digit run as its id, and
   * the category `classify_category` gives its name, one of the seven labels.
   */
  lemma RuleRowShape(doc: Document, i: nat)
    requires i < |doc| && ExtractRule(doc, i).Some?
    ensures var row := ExtractRule(doc, i).value;
            && |row.id| > 0 && AllDigits(row.id)
            && row.name == ItemName(doc, i) && row.formula == ExtractFormula(doc, i)
            && row.category == ClassifyCategory(row.name)
            && row.category in CategoryLabels
  {
    var p := TaggedNumberLeftmost(doc[i].markup, "#rule");
    ClassifyCategoryLabel(ItemName(doc, i));
  }

  /** Every function row carries the leftmost `#Function` tag's whole, non-empty digit run as its id. */
  lemma FunctionRowShape(doc: Document, i: nat)
    requires i < |doc| && ExtractFunction(doc, i).Some?
    ensures var row := ExtractFunction(doc, i).value;
            && |row.id| > 0 && AllDigits(row.id)
            && row.name == ItemName(doc, i) && row.formula == ExtractFormula(doc, i)
  {
    var p := TaggedNumberLeftmost(doc[i].markup, "#function");
  }

  /** The name of a block is the stripped text of its first `<strong>`, or "Unknown" when it has none. */
  lemma ItemNameField(doc: Document, i: nat)
    requires i < |doc|
    ensures (forall k :: i < k < doc[i].end ==> doc[k].tag != "strong") ==> ItemName(doc, i) == "Unknown"
    ensures forall j :: i < j < doc[i].end && doc[j].tag == "strong" && (forall k :: i < k < j ==> doc[k].tag != "strong")
                        ==> ItemName(doc, i) == TextStrip(doc[j])
  {
    var q := Tag("strong");
    FindSpec(doc, i, q);
    forall j | i < j < doc[i].end && doc[j].tag == "strong" && (forall k :: i < k < j ==> doc[k].tag != "strong")
      ensures Find(doc, i, q) == Some(j)
    {
      assert Matches(doc[j], q);
    }
  }

  /** The formula is the text of the block's first `<pre>` as it stands, or "No formula found" when it has none. */
  lemma FormulaField(doc: Document, i: nat)
    requires i < |doc|
    ensures (forall k :: i < k < doc[i].end ==> doc[k].tag != "pre") ==> ExtractFormula(doc, i) == "No formula found"
    ensures forall j :: i < j < doc[i].end && doc[j].tag == "pre" && (forall k :: i < k < j ==> doc[k].tag != "pre")
                        ==> ExtractFormula(doc, i) == Text(doc[j])
  {
    FindSpec(doc, i, Tag("pre"));
  }

  /** The rows of one listed file: none unless its name ends in ".html" or ".htm". */
  function FileRules(f: FileEntry): seq<RuleRow> {
    if HtmlName(f.name) && Readable(f.source).Some? then PageRules(Readable(f.source).value) else []
  }

  function FileFunctions(f: FileEntry): seq<FunctionRow> {
    if HtmlName(f.name) && Readable(f.source).Some? then PageFunctions(Readable(f.source).value) else []
  }

  function AllRules(files: seq<FileEntry>): seq<RuleRow> {
    Flat(files, FileRules)
  }

  function AllFunctions(files: seq<FileEntry>): seq<FunctionRow> {
    Flat(files, FileFunctions)
  }

  datatype Run = NoInputFolder | NothingExtracted | Report(rules: seq<RuleRow>, functions: seq<FunctionRow>)

  lemma FilesStep(files: seq<FileEntry>, k: nat)
    requires k < |files|
    ensures AllRules(files[..k + 1]) == AllRules(files[..k]) + FileRules(files[k])
    ensures AllFunctions(files[..k + 1]) == AllFunctions(files[..k]) + FileFunctions(files[k])
  {
    assert files[..k + 1] == files[..k] + [files[k]];
    FlatSnoc(files[..k], files[k], FileRules);
    FlatSnoc(files[..k], files[k], FileFunctions);
  }

  /**
   * `main()`: without the input folder nothing is done; otherwise the rows of the ".html" and
   * ".htm" files are put together in listing order, and the report is written exactly when
   * there is a rule or a function.
   */
  method ExtractReport(inputExists: bool, files: seq<FileEntry>) returns (run: Run)
    ensures !inputExists ==> run == NoInputFolder
    ensures inputExists ==> (run.Report? <==> |AllRules(files)| > 0 || |AllFunctions(files)| > 0)
    ensures inputExists ==> run.Report? || run == NothingExtracted
    ensures run.Report? ==> run.rules == AllRules(files) && run.functions == AllFunctions(files)
  {
    if !inputExists {
      return NoInputFolder;
    }
    var allRules, allFunctions := [], [];
    var k := 0;
    while k < |files|
      invariant k <= |files|
      invariant allRules == AllRules(files[..k]) && allFunctions == AllFunctions(files[..k])
    {
      FilesStep(files, k);
      if HtmlName(files[k].name) {
        var rules, functions := ProcessHtmlFile(files[k].source);
        allRules := allRules + rules;
        allFunctions := allFunctions + functions;
      }
      k := k + 1;
    }
    assert files[..k] == files;
    if |allRules| > 0 || |allFunctions| > 0 {
      run := Report(allRules, allFunctions);
    } else {
      run := NothingExtracted;
    }
  }
}
