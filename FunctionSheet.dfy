/**
 * The functions sheet (07_html_excel_rule_extraction/extract_functions.py): every
 * `<div class="rule">` block whose `<h3>` text starts with "F" gives a row of its stripped
 * heading and its formula's text as it stands. A file that does not decode, or whose page
 * raises, is logged and skipped; a file that cannot be opened ends the run, because its
 * encoding is detected before the `try`.
 */
module FunctionSheet {
  import opened Options
  import opened Strings
  import opened Flatten
  import opened Html
  import opened SheetLayout

  /** `(func_name, formula)` */
  datatype Function = Function(name: string, formula: string)

  /**
   * What block i adds to `functions`: nothing when its heading's text does not start with "F";
   * its row when it does and the block has a formula `<div>`; and None, the `AttributeError` of
   * `.get_text` on `None`, when the block has no `<h3>`, or has an "F" heading and no formula.
   */
  function BlockFunction(doc: Document, i: nat): Option<seq<Function>> {
    if i >= |doc| then Some([])
    else
      match Find(doc, i, Tag("h3"))
      case None => None
      case Some(h) =>
        if !StartsWith(Text(doc[h]), "F") then Some([])
        else
          match Find(doc, i, FormulaQuery)
          case None => None
          case Some(f) => Some([Function(TextStrip(doc[h]), TextSep(doc[f], "\n"))])
  }

  /** The block step as the function the block loop folds over the block list. */
  function BlockFunctions(doc: Document): nat -> Option<seq<Function>> {
    (i: nat) => BlockFunction(doc, i)
  }

  /** `extract_functions(soup)`: the rows of the rule blocks in document order, or None when a block raises. */
  function PageFunctions(doc: Document): Option<seq<Function>> {
    FlatAll(FindAll(doc, RuleQuery), BlockFunctions(doc))
  }

  /** A rule block that raises: it has no `<h3>`, or an "F" heading and no formula `<div>`. */
  predicate BlockRaises(doc: Document, i: nat)
    requires i < |doc|
  {
    Find(doc, i, Tag("h3")).None? ||
    (StartsWith(Text(doc[Find(doc, i, Tag("h3")).value]), "F") && Find(doc, i, FormulaQuery).None?)
  }

  /** The body of the block loop. */
  method FunctionOfBlock(doc: Document, i: nat) returns (r: Option<seq<Function>>)
    requires i < |doc|
    ensures r == BlockFunction(doc, i)
  {
    var heading := Find(doc, i, Tag("h3"));
    if heading.None? {
      return None;
    }
    r := Some([]);
    if StartsWith(Text(doc[heading.value]), "F") {
      var name := TextStrip(doc[heading.value]);
      var formula := Find(doc, i, FormulaQuery);
      if formula.None? {
        return None;
      }
      r := Some([Function(name, TextSep(doc[formula.value], "\n"))]);
    }
  }

  /** The block loop of `extract_functions`. */
  method ExtractFunctions(doc: Document) returns (rows: Option<seq<Function>>)
    ensures rows == PageFunctions(doc)
  {
    var blocks := FindAll(doc, RuleQuery);
    FindAllToSound(doc, RuleQuery, |doc|);
    var found: seq<Function> := [];
    var k := 0;
    while k < |blocks|
      invariant k <= |blocks| && FlatAllTo(blocks, BlockFunctions(doc), k) == Some(found)
    {
      var r := FunctionOfBlock(doc, blocks[k]);
      if r.None? {
        FlatAllRaised(blocks, BlockFunctions(doc), k);
        return None;
      }
      FlatAllToStep(blocks, BlockFunctions(doc), k, found, r.value);
      found := found + r.value;
      k := k + 1;
    }
    rows := Some(found);
  }

  /** A page raises exactly when one of its rule blocks does. */
  lemma PageFunctionsRaise(doc: Document)
    ensures PageFunctions(doc).None? <==> exists i :: 0 <= i < |doc| && Matches(doc[i], RuleQuery) && BlockRaises(doc, i)
  {
    var blocks := FindAll(doc, RuleQuery);
    FlatAllToNone(blocks, BlockFunctions(doc), |blocks|);
    FindAllToSound(doc, RuleQuery, |doc|);
    if i :| 0 <= i < |doc| && Matches(doc[i], RuleQuery) && BlockRaises(doc, i) {
      FindAllToComplete(doc, RuleQuery, |doc|, i);
      var k :| 0 <= k < |blocks| && blocks[k] == i;
      assert BlockFunctions(doc)(blocks[k]).None?;
    }
  }

  /** A block adds at most one row. */
  lemma BlockFunctionSingle(doc: Document, i: nat)
    ensures BlockFunction(doc, i).Some? ==> |BlockFunction(doc, i).value| <= 1
  {
  }

  /** Every row of a page that does not raise comes from one of its rule blocks... */
  lemma FunctionSource(doc: Document, row: Function) returns (i: nat)
    requires PageFunctions(doc).Some? && row in PageFunctions(doc).value
    ensures i < |doc| && Matches(doc[i], RuleQuery) && BlockFunction(doc, i) == Some([row])
  {
    var blocks := FindAll(doc, RuleQuery);
    FlatAllToMember(blocks, BlockFunctions(doc), |blocks|, row);
    FindAllToSound(doc, RuleQuery, |doc|);
    var k :| 0 <= k < |blocks| && BlockFunctions(doc)(blocks[k]).Some? && row in BlockFunctions(doc)(blocks[k]).value;
    i := blocks[k];
    var r := BlockFunction(doc, i).value;
    BlockFunctionSingle(doc, i);
    assert r == [r[0]] && r[0] == row;
  }

  /** ...and every rule block's row is on the page. */
  lemma FunctionRecorded(doc: Document, row: Function, i: nat)
    requires PageFunctions(doc).Some? && i < |doc| && Matches(doc[i], RuleQuery) && BlockFunction(doc, i) == Some([row])
    ensures row in PageFunctions(doc).value
  {
    var blocks := FindAll(doc, RuleQuery);
    FlatAllToMember(blocks, BlockFunctions(doc), |blocks|, row);
    FindAllToComplete(doc, RuleQuery, |doc|, i);
    var k :| 0 <= k < |blocks| && blocks[k] == i;
    assert row in BlockFunctions(doc)(blocks[k]).value;
  }

  /**
   * A row is the heading of a block whose `<h3>` text starts with "F", stripped, and that
   * block's formula text joined by newlines untouched.
   */
  lemma FunctionShape(doc: Document, i: nat, row: Function)
    requires BlockFunction(doc, i) == Some([row])
    ensures i < |doc| && Find(doc, i, Tag("h3")).Some? && Find(doc, i, FormulaQuery).Some?
    ensures var h := Find(doc, i, Tag("h3")).value;
            && StartsWith(Text(doc[h]), "F") && row.name == TextStrip(doc[h])
            && row.formula == TextSep(doc[Find(doc, i, FormulaQuery).value], "\n")
    ensures |row.name| == 0 || Clean(row.name)
  {
    StrippedTextIsStripped(doc[Find(doc, i, Tag("h3")).value], "");
  }

  /**
   * One listed file: skipped unless its name ends in ".html" or ".htm"; None, ending the run,
   * when it cannot be opened; no rows when it does not decode or its page raises.
   */
  function FileFunctions(f: FileEntry): Option<seq<Function>> {
    if !HtmlName(f.name) then Some([])
    else
      match f.source
      case Unopenable => None
      case Undecodable(_) => Some([])
      case Parsed(doc) => if PageFunctions(doc).None? then Some([]) else PageFunctions(doc)
  }

  /** `all_functions` after the loop, or None when the run ended. */
  function AllFunctions(files: seq<FileEntry>): Option<seq<Function>> {
    FlatAll(files, FileFunctions)
  }

  /** One file of the loop, inside and around its `try`. */
  method ProcessFile(f: FileEntry) returns (rows: Option<seq<Function>>)
    ensures rows == FileFunctions(f)
  {
    rows := Some([]);
    if HtmlName(f.name) {
      if f.source.Unopenable? {
        return None;
      }
      if f.source.Parsed? {
        var extracted := ExtractFunctions(f.source.doc);
        if extracted.Some? {
          rows := extracted;
        }
      }
    }
  }

  /** The file loop of `process_html_files`. */
  method CollectFunctions(files: seq<FileEntry>) returns (all: Option<seq<Function>>)
    ensures all == AllFunctions(files)
  {
    var found: seq<Function> := [];
    var k := 0;
    while k < |files|
      invariant k <= |files| && FlatAllTo(files, FileFunctions, k) == Some(found)
    {
      var rows := ProcessFile(files[k]);
      if rows.None? {
        FlatAllRaised(files, FileFunctions, k);
        return None;
      }
      FlatAllToStep(files, FileFunctions, k, found, rows.value);
      found := found + rows.value;
      k := k + 1;
    }
    all := Some(found);
  }

  /** The run ends early exactly when one of the ".html"/".htm" files cannot be opened. */
  lemma AllFunctionsRaise(files: seq<FileEntry>)
    ensures AllFunctions(files).None? <==>
            exists i :: 0 <= i < |files| && HtmlName(files[i].name) && files[i].source.Unopenable?
  {
    FlatAllToNone(files, FileFunctions, |files|);
  }

  /**
   * When the run does not end early, its rows are those of the ".html"/".htm" files that decode
   * and whose pages do not raise.
   */
  lemma AllFunctionsFrom(files: seq<FileEntry>, row: Function)
    requires AllFunctions(files).Some?
    ensures row in AllFunctions(files).value <==>
            exists i :: 0 <= i < |files| && HtmlName(files[i].name) && files[i].source.Parsed?
                        && PageFunctions(files[i].source.doc).Some? && row in PageFunctions(files[i].source.doc).value
  {
    FlatAllToMember(files, FileFunctions, |files|, row);
  }

  const Headers := ["Function Name", "Formula"]

  /** The sheet `write_functions_to_excel` fills: the header row, then one row per function in order. */
  function SheetOf(rows: seq<Function>): (sheet: seq<seq<string>>)
    ensures |sheet| == |rows| + 1 && sheet[0] == Headers
    ensures forall j :: 0 <= j < |rows| ==> sheet[j + 1] == [rows[j].name, rows[j].formula]
  {
    [Headers] + seq(|rows|, j requires 0 <= j < |rows| => [rows[j].name, rows[j].formula])
  }

  /** The sheet has exactly the two columns of its header. */
  lemma SheetColumns(rows: seq<Function>)
    ensures Columns(SheetOf(rows)) == 2
  {
    var sheet := SheetOf(rows);
    forall r | 0 <= r < |sheet|
      ensures |sheet[r]| == 2
    {
      if r > 0 {
        assert sheet[r] == [rows[r - 1].name, rows[r - 1].formula];
      }
    }
  }

  datatype Run = Raised | NoFunctions | Written(sheet: seq<seq<string>>, widths: seq<nat>)

  /**
   * `process_html_files(input_dir, output_path)`: the run ends early when a listed file cannot
   * be opened; otherwise the sheet is written, with its columns fitted, exactly when a
   * function was found.
   */
  method ProcessHtmlFiles(files: seq<FileEntry>) returns (run: Run)
    ensures run.Raised? <==> AllFunctions(files).None?
    ensures run.NoFunctions? <==> AllFunctions(files) == Some([])
    ensures run.Written? ==> AllFunctions(files).Some? && run.sheet == SheetOf(AllFunctions(files).value)
    ensures run.Written? ==> |run.widths| == 2
    ensures run.Written? ==> forall c :: 0 <= c < 2 ==> run.widths[c] == FitWidth(LongestTo(run.sheet, c, |run.sheet|))
  {
    var all := CollectFunctions(files);
    if all.None? {
      return Raised;
    }
    var found := all.value;
    if |found| > 0 {
      var sheet := SheetOf(found);
      var widths := AutoFitColumns(sheet);
      SheetColumns(found);
      run := Written(sheet, widths);
    } else {
      run := NoFunctions;
    }
  }
}
