/**
 * The formula report (script.py at the root of the repository): every `<pre>` element whose
 * text mentions "Formula:" gives a row of the nearest `<a>` before it, the formula and the file
 * it came from. Only ".htm" files are read; one that does not decode in its detected encoding
 * is read again as UTF-8 with the undecodable bytes dropped, and one that cannot be opened
 * contributes nothing.
 */
module FormulaScan {
  import opened Options
  import opened Strings
  import opened Flatten
  import opened Html

  /** `(rule_title, formula_text, file_path)` */
  datatype FormulaRow = FormulaRow(title: string, formula: string, path: string)

  const Marker := "Formula:"

  /** What `<pre>` element i adds: a row when it mentions "Formula:" and an `<a>` comes before it. */
  function PreRow(doc: Document, path: string, i: nat): seq<FormulaRow> {
    if i < |doc| && Contains(Text(doc[i]), Marker) then
      match FindPrevious(doc, i, "a")
      case None => []
      case Some(a) => [FormulaRow(Strip(Text(doc[a])), Strip(Text(doc[i])), path)]
    else []
  }

  /** The element step as the function the loop folds over the `<pre>` elements. */
  function PreRows(doc: Document, path: string): nat -> seq<FormulaRow> {
    (i: nat) => PreRow(doc, path, i)
  }

  /** `extract_data_from_htm` on a parsed page: a row per qualifying `<pre>`, in document order. */
  function PageFormulas(doc: Document, path: string): seq<FormulaRow> {
    Flat(FindAll(doc, Tag("pre")), PreRows(doc, path))
  }

  /** The body of the `<pre>` loop. */
  method FormulaOfPre(doc: Document, path: string, i: nat) returns (rows: seq<FormulaRow>)
    requires i < |doc|
    ensures rows == PreRow(doc, path, i)
  {
    rows := [];
    if Contains(Text(doc[i]), Marker) {
      var a := FindPrevious(doc, i, "a");
      if a.Some? {
        rows := [FormulaRow(Strip(Text(doc[a.value])), Strip(Text(doc[i])), path)];
      }
    }
  }

  /** The `<pre>` loop of `extract_data_from_htm`. */
  method FormulasOfPage(doc: Document, path: string) returns (rows: seq<FormulaRow>)
    ensures rows == PageFormulas(doc, path)
  {
    var pres := FindAll(doc, Tag("pre"));
    FindAllToSound(doc, Tag("pre"), |doc|);
    rows := [];
    var k := 0;
    while k < |pres|
      invariant k <= |pres| && rows == FlatTo(pres, PreRows(doc, path), k)
    {
      var r := FormulaOfPre(doc, path, pres[k]);
      rows := rows + r;
      k := k + 1;
    }
  }

  /** `extract_data_from_htm(file_path)`: nothing when the file cannot be opened, else the rows of the page as read. */
  method ExtractDataFromHtm(f: FileEntry) returns (rows: seq<FormulaRow>)
    ensures f.source.Unopenable? ==> rows == []
    ensures Readable(f.source).Some? ==> rows == PageFormulas(Readable(f.source).value, f.path)
  {
    rows := [];
    var page := Readable(f.source);
    if page.Some? {
      rows := FormulasOfPage(page.value, f.path);
    }
  }

  /** A row comes from a `<pre>` that mentions "Formula:", titled by the nearest `<a>` before it... */
  lemma PageFormulaSource(doc: Document, path: string, row: FormulaRow) returns (i: nat, a: nat)
    requires row in PageFormulas(doc, path)
    ensures i < |doc| && doc[i].tag == "pre" && Contains(Text(doc[i]), Marker)
    ensures FindPrevious(doc, i, "a") == Some(a) && row == FormulaRow(Strip(Text(doc[a])), Strip(Text(doc[i])), path)
  {
    var pres := FindAll(doc, Tag("pre"));
    FlatToMember(pres, PreRows(doc, path), |pres|, row);
    FindAllToSound(doc, Tag("pre"), |doc|);
    var k :| 0 <= k < |pres| && row in PreRows(doc, path)(pres[k]);
    i := pres[k];
    a := FindPrevious(doc, i, "a").value;
  }

  /** ...and every such `<pre>` gives its row. */
  lemma PageFormulaRecorded(doc: Document, path: string, i: nat)
    requires i < |doc| && doc[i].tag == "pre" && Contains(Text(doc[i]), Marker) && FindPrevious(doc, i, "a").Some?
    ensures FormulaRow(Strip(Text(doc[FindPrevious(doc, i, "a").value])), Strip(Text(doc[i])), path) in PageFormulas(doc, path)
  {
    var pres := FindAll(doc, Tag("pre"));
    var row := FormulaRow(Strip(Text(doc[FindPrevious(doc, i, "a").value])), Strip(Text(doc[i])), path);
    FlatToMember(pres, PreRows(doc, path), |pres|, row);
    FindAllToComplete(doc, Tag("pre"), |doc|, i);
    var k :| 0 <= k < |pres| && pres[k] == i;
    assert row in PreRows(doc, path)(pres[k]);
  }

  /** A `<pre>` that mentions "Formula:" gives no row exactly when no `<a>` comes before it in the page. */
  lemma UntitledFormulaDropped(doc: Document, path: string, i: nat)
    requires i < |doc| && Contains(Text(doc[i]), Marker)
    ensures |PreRow(doc, path, i)| == 0 <==> forall k :: 0 <= k < i ==> doc[k].tag != "a"
  {
    FindPreviousSpec(doc, i, "a");
  }

  /**
   * Each row's formula still carries the "Formula:" marker, stripping only whitespace, and
   * both its title and its formula neither start nor end with whitespace.
   */
  lemma RowShape(doc: Document, path: string, row: FormulaRow)
    requires row in PageFormulas(doc, path)
    ensures Contains(row.formula, Marker) && Clean(row.formula)
    ensures |row.title| == 0 || Clean(row.title)
    ensures row.path == path
  {
    var i, a := PageFormulaSource(doc, path, row);
    StripKeeps(Text(doc[i]), Marker);
    StripClean(Text(doc[i]));
    StripClean(Text(doc[a]));
  }

  /** The rows of one listed file: none unless its name ends in ".htm", and none when it cannot be opened. */
  function FileFormulas(f: FileEntry): seq<FormulaRow> {
    if HtmName(f.name) && Readable(f.source).Some? then PageFormulas(Readable(f.source).value, f.path) else []
  }

  function AllFormulas(files: seq<FileEntry>): seq<FormulaRow> {
    Flat(files, FileFormulas)
  }

  /** Every row of the report comes from a parsed ".htm" file, and names that file's path. */
  lemma AllFormulasFrom(files: seq<FileEntry>, row: FormulaRow)
    requires row in AllFormulas(files)
    ensures exists i :: 0 <= i < |files| && HtmName(files[i].name) && Readable(files[i].source).Some?
                        && row.path == files[i].path && row in PageFormulas(Readable(files[i].source).value, files[i].path)
  {
    FlatMember(files, FileFormulas, row);
    var i :| 0 <= i < |files| && row in FileFormulas(files[i]);
    RowShape(Readable(files[i].source).value, files[i].path, row);
  }

  /** A ".html" file contributes no row, whatever it holds. */
  lemma HtmlFilesIgnored(f: FileEntry)
    requires EndsWith(f.name, ".html")
    ensures FileFormulas(f) == []
  {
    HtmExcludesHtml(f.name);
  }

  const Headers := ["Rule Description", "Formula", "Source File"]

  /** The sheet `write_to_excel` fills: the header row, then one row per formula in order. */
  function SheetOf(rows: seq<FormulaRow>): (sheet: seq<seq<string>>)
    ensures |sheet| == |rows| + 1 && sheet[0] == Headers
    ensures forall j :: 0 <= j < |rows| ==> sheet[j + 1] == [rows[j].title, rows[j].formula, rows[j].path]
  {
    [Headers] + seq(|rows|, j requires 0 <= j < |rows| => [rows[j].title, rows[j].formula, rows[j].path])
  }

  datatype Run = NothingExtracted | Written(sheet: seq<seq<string>>, widths: seq<nat>)

  /** One file of the walk: skipped unless its name ends in ".htm", extracted otherwise. */
  method ProcessFile(f: FileEntry) returns (rows: seq<FormulaRow>)
    ensures rows == FileFormulas(f)
  {
    rows := [];
    if HtmName(f.name) {
      rows := ExtractDataFromHtm(f);
    }
  }

  /** The walk of `process_htm_reports`: the rows of the ".htm" files in listing order. */
  method CollectFormulas(files: seq<FileEntry>) returns (all: seq<FormulaRow>)
    ensures all == AllFormulas(files)
  {
    all := [];
    var k := 0;
    while k < |files|
      invariant k <= |files| && all == FlatTo(files, FileFormulas, k)
    {
      var rows := ProcessFile(files[k]);
      assert FlatTo(files, FileFormulas, k + 1) == all + rows;
      all := all + rows;
      k := k + 1;
    }
  }

  /** `process_htm_reports`: the sheet is written, every column 50 wide, exactly when a formula was found. */
  method ProcessHtmReports(files: seq<FileEntry>) returns (run: Run)
    ensures run.Written? <==> |AllFormulas(files)| > 0
    ensures run.Written? ==> run.sheet == SheetOf(AllFormulas(files)) && run.widths == [50, 50, 50]
  {
    var all := CollectFormulas(files);
    if |all| > 0 {
      run := Written(SheetOf(all), [50, 50, 50]);
    } else {
      run := NothingExtracted;
    }
  }
}
