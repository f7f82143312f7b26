/**
 * The template-reusability analysis: every block of every page of a PDF is sorted into the
 * document's headers, footers, text blocks and images, tables are picked out of the text
 * blocks, and the per-document reports of a corpus are inverted into, for each kind of
 * element, the set of documents in which each element occurs. Only elements shared by more
 * than one document are reported.
 */
module StructureInversion {
  import opened Options
  import opened Strings
  import opened TextNormal
  import opened PdfInput
  import opened Corpus

  /** The five kinds of element of a structure report, in the order the reports list them. */
  datatype Kind = Headers | Footers | TextBlocks | Tables | Images

  const Kinds: seq<Kind> := [Headers, Footers, TextBlocks, Tables, Images]

  /** The key under which a kind is stored, as it appears in the Excel report's "Type" column. */
  function KindName(k: Kind): string {
    match k
    case Headers => "headers"
    case Footers => "footers"
    case TextBlocks => "text_blocks"
    case Tables => "tables"
    case Images => "images"
  }

  /** The five sets of a document's structure report. */
  datatype Structure = Structure(headers: set<string>, footers: set<string>, images: set<string>,
                                 tables: set<string>, textBlocks: set<string>)

  const EmptyStructure := Structure({}, {}, {}, {}, {})

  function Elements(s: Structure, k: Kind): set<string> {
    match k
    case Headers => s.headers
    case Footers => s.footers
    case TextBlocks => s.textBlocks
    case Tables => s.tables
    case Images => s.images
  }

  /**
   * Where a long enough text block lands by the top of its bounding box: the header test comes
   * first (within 100 points of the top of the page), then the footer test (within 100 points
   * of the bottom).
   */
  function Place(top: real, height: real): (k: Kind)
    ensures k == Headers <==> top < 100.0
    ensures k == Footers <==> !(top < 100.0) && top > height - 100.0
    ensures k == TextBlocks <==> !(top < 100.0) && !(top > height - 100.0)
  {
    if top < 100.0 then Headers else if top > height - 100.0 then Footers else TextBlocks
  }

  /** The entry an image block adds, `"Image at position "` followed by how its bbox prints. */
  function ImageEntry(b: Block): string {
    "Image at position " + b.bboxText
  }

  /** A block's text is considered when it has lines and its stripped raw text has at least 100 characters. */
  predicate LongText(b: Block) {
    b.spans.Some? && |BlockText(b.spans.value)| >= 100
  }

  /** The text a long enough block adds: its raw text, lower-cased and stripped. */
  function Normalized(b: Block): string
    requires b.spans.Some?
  {
    Normalize(LowerStrip, BlockText(b.spans.value))
  }

  /** Block b of a page of the given height adds element e under kind k. */
  predicate Adds(b: Block, height: real, k: Kind, e: string) {
    if k == Images then b.hasImage && e == ImageEntry(b)
    else LongText(b) && Place(b.top, height) == k && e == Normalized(b)
  }

  /** A text block that is taken for a table: it mentions "table" or has more than five line breaks. */
  predicate IsTable(t: string) {
    Contains(t, "table") || CountChar(t, '\n') > 5
  }

  function TablesOf(texts: set<string>): set<string> {
    set t | t in texts && IsTable(t)
  }

  /** The report after one block: an image entry if it has an image, and its text under its placement if it is long enough. */
  function AddBlock(s: Structure, b: Block, height: real): Structure {
    var s1 := if b.hasImage then s.(images := s.images + {ImageEntry(b)}) else s;
    if !LongText(b) then s1
    else
      var e := Normalized(b);
      match Place(b.top, height)
      case Headers => s1.(headers := s1.headers + {e})
      case Footers => s1.(footers := s1.footers + {e})
      case _ => s1.(textBlocks := s1.textBlocks + {e})
  }

  /** The report after the first k blocks of a page. */
  function AddBlocksTo(s: Structure, blocks: seq<Block>, height: real, k: nat): Structure
    requires k <= |blocks|
  {
    if k == 0 then s else AddBlock(AddBlocksTo(s, blocks, height, k - 1), blocks[k - 1], height)
  }

  /** The report after one page: a page that fails to load is skipped; after a loaded page's blocks the tables are marked. */
  function AddPage(s: Structure, page: Page): Structure {
    if page.LoadFailed? then s
    else
      var s1 := AddBlocksTo(s, page.blocks, page.height, |page.blocks|);
      s1.(tables := s1.tables + TablesOf(s1.textBlocks))
  }

  /** The report after the first n pages. */
  function PagesTo(pages: seq<Page>, n: nat): Structure
    requires n <= |pages|
  {
    if n == 0 then EmptyStructure else AddPage(PagesTo(pages, n - 1), pages[n - 1])
  }

  /** `analyze_pdf(file_path)`: no report for a file that does not open or is encrypted. */
  function StructureOf(f: PdfFile): Option<Structure> {
    if f.Unopenable? || f.encrypted then None else Some(PagesTo(f.pages, |f.pages|))
  }

  /** One block adds to a kind other than tables exactly the element it adds under that kind, and leaves the tables alone. */
  lemma AddBlockElements(s: Structure, b: Block, height: real, k: Kind, e: string)
    requires k != Tables
    ensures e in Elements(AddBlock(s, b, height), k) <==> e in Elements(s, k) || Adds(b, height, k, e)
    ensures AddBlock(s, b, height).tables == s.tables
    ensures s.textBlocks <= AddBlock(s, b, height).textBlocks
  {
  }

  /** Some block of page `page` adds e under k. */
  predicate PageAdds(page: Page, k: Kind, e: string) {
    page.Loaded? && exists j :: 0 <= j < |page.blocks| && Adds(page.blocks[j], page.height, k, e)
  }

  lemma {:induction false} BlocksElements(s: Structure, blocks: seq<Block>, height: real, n: nat, k: Kind, e: string)
    requires n <= |blocks| && k != Tables
    ensures e in Elements(AddBlocksTo(s, blocks, height, n), k)
            <==> e in Elements(s, k) || exists j :: 0 <= j < n && Adds(blocks[j], height, k, e)
  {
    if n > 0 {
      BlocksElements(s, blocks, height, n - 1, k, e);
      AddBlockElements(AddBlocksTo(s, blocks, height, n - 1), blocks[n - 1], height, k, e);
    }
  }

  /** Every header, footer, text block and image of a document was added by a block of some loaded page. */
  lemma {:induction false} PagesElementSource(pages: seq<Page>, n: nat, k: Kind, e: string) returns (p: nat)
    requires n <= |pages| && k != Tables && e in Elements(PagesTo(pages, n), k)
    ensures p < n && PageAdds(pages[p], k, e)
  {
    PageElements(PagesTo(pages, n - 1), pages[n - 1], k, e);
    if PageAdds(pages[n - 1], k, e) {
      p := n - 1;
    } else {
      p := PagesElementSource(pages, n - 1, k, e);
    }
  }

  /** What a block of a loaded page adds to the headers, footers, text blocks or images stays in the document's report. */
  lemma PagesElementRecorded(pages: seq<Page>, n: nat, k: Kind, e: string, p: nat, j: nat)
    requires n <= |pages| && k != Tables && p < n && pages[p].Loaded?
    requires j < |pages[p].blocks| && Adds(pages[p].blocks[j], pages[p].height, k, e)
    ensures e in Elements(PagesTo(pages, n), k)
  {
    PageRecords(PagesTo(pages, p), pages[p], k, e, j);
    PagesKeep(pages, p + 1, n, k, e);
  }

  /** Later pages never remove a header, footer, text block or image. */
  lemma {:induction false} PagesKeep(pages: seq<Page>, m: nat, n: nat, k: Kind, e: string)
    requires m <= n <= |pages| && k != Tables && e in Elements(PagesTo(pages, m), k)
    ensures e in Elements(PagesTo(pages, n), k)
  {
    if m < n {
      PagesKeep(pages, m, n - 1, k, e);
      PageKeeps(PagesTo(pages, n - 1), pages[n - 1], k, e);
    }
  }

  /** A page never removes a header, footer, text block or image. */
  lemma PageKeeps(s: Structure, page: Page, k: Kind, e: string)
    requires k != Tables && e in Elements(s, k)
    ensures e in Elements(AddPage(s, page), k)
  {
    PageElements(s, page, k, e);
  }

  /** What a block of a loaded page adds lands in the report after that page. */
  lemma PageRecords(s: Structure, page: Page, k: Kind, e: string, j: nat)
    requires k != Tables && page.Loaded? && j < |page.blocks| && Adds(page.blocks[j], page.height, k, e)
    ensures e in Elements(AddPage(s, page), k)
  {
    BlocksElements(s, page.blocks, page.height, |page.blocks|, k, e);
  }

  /** One page adds to a kind other than tables exactly what its blocks add there. */
  lemma PageElements(s: Structure, page: Page, k: Kind, e: string)
    requires k != Tables
    ensures e in Elements(AddPage(s, page), k) <==> e in Elements(s, k) || PageAdds(page, k, e)
  {
    if page.Loaded? {
      BlocksElements(s, page.blocks, page.height, |page.blocks|, k, e);
    }
  }

  /** Going through a page's blocks leaves the tables alone and only adds text blocks. */
  lemma {:induction false} BlocksKeepTables(s: Structure, blocks: seq<Block>, height: real, n: nat)
    requires n <= |blocks|
    ensures AddBlocksTo(s, blocks, height, n).tables == s.tables
    ensures s.textBlocks <= AddBlocksTo(s, blocks, height, n).textBlocks
  {
    if n > 0 {
      BlocksKeepTables(s, blocks, height, n - 1);
      AddBlockElements(AddBlocksTo(s, blocks, height, n - 1), blocks[n - 1], height, Headers, "");
    }
  }

  /**
   * The tables are marked again after every loaded page, from all text blocks so far; since the
   * text blocks only grow, the tables are always exactly the text blocks that look like tables.
   */
  lemma {:induction false} TablesFollowTextBlocks(pages: seq<Page>, n: nat)
    requires n <= |pages|
    ensures PagesTo(pages, n).tables == TablesOf(PagesTo(pages, n).textBlocks)
  {
    if n > 0 {
      TablesFollowTextBlocks(pages, n - 1);
      var page := pages[n - 1];
      if page.Loaded? {
        var s := PagesTo(pages, n - 1);
        BlocksKeepTables(s, page.blocks, page.height, |page.blocks|);
        var s1 := AddBlocksTo(s, page.blocks, page.height, |page.blocks|);
        assert TablesOf(s.textBlocks) <= TablesOf(s1.textBlocks);
      }
    }
  }

  /** In the report of a document, the tables are the text blocks that mention "table" or have more than five line breaks. */
  lemma TablesAreMarkedTextBlocks(f: PdfFile, e: string)
    requires StructureOf(f).Some?
    ensures e in StructureOf(f).value.tables <==> e in StructureOf(f).value.textBlocks && IsTable(e)
  {
    TablesFollowTextBlocks(f.pages, |f.pages|);
  }

  /** The table loop after each page: every text block so far that looks like a table is added to the tables. */
  method MarkTables(texts: set<string>, tables: set<string>) returns (marked: set<string>)
    ensures marked == tables + TablesOf(texts)
  {
    marked := tables;
    var rest := texts;
    while rest != {}
      invariant rest <= texts
      invariant forall t :: t in marked <==> t in tables || (t in texts && t !in rest && IsTable(t))
      decreases |rest|
    {
      var t :| t in rest;
      if IsTable(t) {
        marked := marked + {t};
      }
      rest := rest - {t};
    }
  }

  /** `analyze_pdf(file_path)`: the page loop, the block loop and the table marking after each loaded page. */
  method AnalyzeStructure(f: PdfFile) returns (r: Option<Structure>)
    ensures r == StructureOf(f)
  {
    if f.Unopenable? || f.encrypted {
      return None;
    }
    var report := EmptyStructure;
    var p := 0;
    while p < |f.pages|
      invariant p <= |f.pages| && report == PagesTo(f.pages, p)
    {
      var page := f.pages[p];
      if page.Loaded? {
        var k := 0;
        while k < |page.blocks|
          invariant k <= |page.blocks|
          invariant report == AddBlocksTo(PagesTo(f.pages, p), page.blocks, page.height, k)
        {
          var b := page.blocks[k];
          if b.hasImage {
            report := report.(images := report.images + {ImageEntry(b)});
          }
          if b.spans.Some? {
            var blockText := BlockText(b.spans.value);
            var normalized := Normalize(LowerStrip, blockText);
            if |blockText| >= 100 {
              if b.top < 100.0 {
                report := report.(headers := report.headers + {normalized});
              } else if b.top > page.height - 100.0 {
                report := report.(footers := report.footers + {normalized});
              } else {
                report := report.(textBlocks := report.textBlocks + {normalized});
              }
            }
          }
          k := k + 1;
        }
        var tables := MarkTables(report.textBlocks, report.tables);
        report := report.(tables := tables);
      }
      p := p + 1;
    }
    return Some(report);
  }

  /** For each element of one kind, the documents in which it occurs. */
  type Inversion = map<string, set<string>>

  /** The documents whose report holds element e under kind k. */
  function Holders(reports: map<string, Structure>, k: Kind, e: string): set<string> {
    set p | p in reports && e in Elements(reports[p], k)
  }

  /** The same, among the documents D only. */
  function HoldersIn(reports: map<string, Structure>, d: set<string>, k: Kind, e: string): set<string>
    requires d <= reports.Keys
  {
    set p | p in d && e in Elements(reports[p], k)
  }

  /** `inv[e]` of a `defaultdict(set)`: the empty set for an element never added. */
  function Get(inv: Inversion, e: string): set<string> {
    if e in inv then inv[e] else {}
  }

  /** inv is the inversion of kind k over the documents d: an element is a key exactly when some of them holds it, and maps to those that do. */
  ghost predicate InvertsOver(inv: Inversion, reports: map<string, Structure>, d: set<string>, k: Kind)
    requires d <= reports.Keys
  {
    (forall e :: Get(inv, e) == HoldersIn(reports, d, k, e)) && (forall e :: e in inv ==> inv[e] != {})
  }

  /** `common_elements`: every kind is present, and each maps every element to exactly the documents that hold it. */
  ghost predicate Inverts(common: map<Kind, Inversion>, reports: map<string, Structure>) {
    (forall k :: k in common)
    && (forall k, e :: e in common[k] ==> common[k][e] == Holders(reports, k, e) && common[k][e] != {})
    && (forall k, e :: e !in common[k] ==> Holders(reports, k, e) == {})
  }

  /** Adding one more document to d adds it to the holders of exactly the elements it holds. */
  lemma HoldersStep(reports: map<string, Structure>, d: set<string>, p: string, k: Kind, e: string)
    requires d <= reports.Keys && p in reports
    ensures HoldersIn(reports, d + {p}, k, e) == HoldersIn(reports, d, k, e) + (if e in Elements(reports[p], k) then {p} else {})
  {
  }

  /** Some element of a non-empty set. */
  ghost function Pick(s: set<string>): string
    requires s != {}
  {
    var e :| e in s; e
  }

  /** inv after document p is added to the documents of every element of `rest`, one element at a time. */
  ghost function AddAll(inv: Inversion, rest: set<string>, p: string): Inversion
    decreases |rest|
  {
    if rest == {} then inv
    else
      var e := Pick(rest);
      AddAll(inv[e := Get(inv, e) + {p}], rest - {e}, p)
  }

  /** Every element of the set gets document p added to its documents; every other element keeps its documents. */
  lemma {:induction false} AddAllGet(inv: Inversion, rest: set<string>, p: string, x: string)
    ensures Get(AddAll(inv, rest, p), x) == Get(inv, x) + (if x in rest then {p} else {})
    ensures x in AddAll(inv, rest, p) <==> x in inv || x in rest
    decreases |rest|
  {
    if rest != {} {
      var e := Pick(rest);
      var next := inv[e := Get(inv, e) + {p}];
      AddAllGet(next, rest - {e}, p, x);
      if x != e {
        assert Get(next, x) == Get(inv, x);
      }
    }
  }

  /** The order in which the elements are taken does not matter: any element may go first. */
  lemma AddAllAnyFirst(inv: Inversion, rest: set<string>, p: string, e: string)
    requires e in rest
    ensures AddAll(inv[e := Get(inv, e) + {p}], rest - {e}, p) == AddAll(inv, rest, p)
  {
    var next := inv[e := Get(inv, e) + {p}];
    var lhs, rhs := AddAll(next, rest - {e}, p), AddAll(inv, rest, p);
    forall x
      ensures x in lhs <==> x in rhs
      ensures x in lhs ==> lhs[x] == rhs[x]
    {
      AddAllGet(next, rest - {e}, p, x);
      AddAllGet(inv, rest, p, x);
      if x != e {
        assert Get(next, x) == Get(inv, x);
      }
    }
  }

  /** The innermost loop: `common_elements[element_type][element].add(pdf_name)` for each element of one set. */
  method AddHolder(inv: Inversion, elems: set<string>, p: string) returns (inv': Inversion)
    ensures inv' == AddAll(inv, elems, p)
  {
    inv' := inv;
    var rest := elems;
    while rest != {}
      invariant AddAll(inv', rest, p) == AddAll(inv, elems, p)
      decreases |rest|
    {
      var e :| e in rest;
      AddAllAnyFirst(inv', rest, p, e);
      inv' := inv'[e := Get(inv', e) + {p}];
      rest := rest - {e};
    }
  }

  /** The position of a kind in `Kinds`. */
  function KindIndex(k: Kind): (i: nat)
    ensures i < |Kinds| && Kinds[i] == k
  {
    match k
    case Headers => 0
    case Footers => 1
    case TextBlocks => 2
    case Tables => 3
    case Images => 4
  }

  lemma KindsIndexed(i: nat)
    requires i < |Kinds|
    ensures KindIndex(Kinds[i]) == i
  {
  }

  /** Adding one document's elements of kind k to the inversion over d gives the inversion over d and that document. */
  lemma InvertsStep(inv: Inversion, inv': Inversion, reports: map<string, Structure>, d: set<string>, p: string, k: Kind)
    requires d <= reports.Keys && p in reports && InvertsOver(inv, reports, d, k)
    requires inv' == AddAll(inv, Elements(reports[p], k), p)
    ensures InvertsOver(inv', reports, d + {p}, k)
  {
    forall e
      ensures Get(inv', e) == HoldersIn(reports, d + {p}, k, e)
    {
      AddAllGet(inv, Elements(reports[p], k), p, e);
      HoldersStep(reports, d, p, k, e);
    }
    forall e | e in inv'
      ensures inv'[e] != {}
    {
      AddAllGet(inv, Elements(reports[p], k), p, e);
      assert Get(inv', e) == inv'[e];
      if e !in Elements(reports[p], k) {
        assert Get(inv, e) == inv[e];
      }
    }
  }

  /** One document's elements of every kind added to the inversions of the documents d. */
  method AddDocument(common: map<Kind, Inversion>, reports: map<string, Structure>, d: set<string>, p: string)
    returns (common': map<Kind, Inversion>)
    requires d <= reports.Keys && p in reports
    requires forall k :: k in common && InvertsOver(common[k], reports, d, k)
    ensures forall k :: k in common' && InvertsOver(common'[k], reports, d + {p}, k)
  {
    common' := common;
    var i := 0;
    while i < |Kinds|
      invariant i <= |Kinds|
      invariant forall k :: k in common' && InvertsOver(common'[k], reports, if KindIndex(k) < i then d + {p} else d, k)
    {
      var k := Kinds[i];
      KindsIndexed(i);
      var inv := AddHolder(common'[k], Elements(reports[p], k), p);
      InvertsStep(common'[k], inv, reports, d, p, k);
      common' := common'[k := inv];
      i := i + 1;
    }
  }

  /** `{kind: defaultdict(set) for each kind}`: nothing recorded yet. */
  const NoElements: map<Kind, Inversion> :=
    map[Headers := map[], Footers := map[], TextBlocks := map[], Tables := map[], Images := map[]]

  lemma NoElementsInvertNothing(reports: map<string, Structure>)
    ensures forall k :: k in NoElements && InvertsOver(NoElements[k], reports, {}, k)
  {
    forall k
      ensures k in NoElements && InvertsOver(NoElements[k], reports, {}, k)
    {
      assert NoElements[k] == map[] by {
        match k
        case Headers =>
        case Footers =>
        case TextBlocks =>
        case Tables =>
        case Images =>
      }
      forall e
        ensures HoldersIn(reports, {}, k, e) == {}
      {
      }
    }
  }

  /**
   * `compare_pdf_structures(pdf_reports)`: for each of the five kinds, element e maps to the set
   * of documents whose report holds e; every element that some report holds is a key, and no
   * other.
   */
  method CompareStructures(reports: map<string, Structure>) returns (common: map<Kind, Inversion>)
    ensures Inverts(common, reports)
  {
    common := NoElements;
    var names := reports.Keys;
    var done: set<string> := {};
    NoElementsInvertNothing(reports);
    while names != {}
      invariant names + done == reports.Keys && names !! done
      invariant forall k :: k in common && InvertsOver(common[k], reports, done, k)
      decreases |names|
    {
      var p :| p in names;
      common := AddDocument(common, reports, done, p);
      names := names - {p};
      done := done + {p};
    }
    assert done == reports.Keys;
    InvertsOverAll(common, reports);
  }

  /** The inversions over all documents are `common_elements`. */
  lemma InvertsOverAll(common: map<Kind, Inversion>, reports: map<string, Structure>)
    requires forall k :: k in common && InvertsOver(common[k], reports, reports.Keys, k)
    ensures Inverts(common, reports)
  {
    forall k, e
      ensures Get(common[k], e) == Holders(reports, k, e)
    {
      assert HoldersIn(reports, reports.Keys, k, e) == Holders(reports, k, e);
    }
  }

  /** The inversion: document p is recorded under element e of kind k exactly when p's report holds e under k. */
  lemma InversionHolds(common: map<Kind, Inversion>, reports: map<string, Structure>, k: Kind, e: string, p: string)
    requires Inverts(common, reports)
    ensures (e in common[k] && p in common[k][e]) <==> (p in reports && e in Elements(reports[p], k))
  {
    if p in reports && e in Elements(reports[p], k) {
      assert p in Holders(reports, k, e);
    }
  }

  /** The inversion is determined by the reports: two inversions of the same reports are one. */
  lemma InversionUnique(c1: map<Kind, Inversion>, c2: map<Kind, Inversion>, reports: map<string, Structure>)
    requires Inverts(c1, reports) && Inverts(c2, reports)
    ensures c1 == c2
  {
    forall k
      ensures c1[k] == c2[k]
    {
      forall e
        ensures e in c1[k] <==> e in c2[k]
      {
      }
    }
  }

  /** One reported element: its full text, the first 200 characters that the reports show, and its documents. */
  datatype Line = Line(element: string, content: string, foundIn: set<string>)

  /** The elements of one kind that occur in more than one document, cut to 200 characters. */
  function SharedLines(inv: Inversion): set<Line> {
    set e | e in inv && |inv[e]| > 1 :: Line(e, Prefix(e, 200), inv[e])
  }

  /** A line is reported exactly for an element held by more than one document, with its first 200 characters and its documents. */
  lemma SharedLinesMember(inv: Inversion, l: Line)
    ensures l in SharedLines(inv) <==>
            l.element in inv && |inv[l.element]| > 1 && l.content == Prefix(l.element, 200) && l.foundIn == inv[l.element]
  {
    if l.element in inv && |inv[l.element]| > 1 && l.content == Prefix(l.element, 200) && l.foundIn == inv[l.element] {
      assert l == Line(l.element, Prefix(l.element, 200), inv[l.element]);
    }
  }

  /** On the inversion of a corpus, an element is reported exactly when more than one document of the corpus holds it. */
  lemma ReportedIffShared(common: map<Kind, Inversion>, reports: map<string, Structure>, k: Kind, e: string)
    requires Inverts(common, reports)
    ensures Line(e, Prefix(e, 200), Holders(reports, k, e)) in SharedLines(common[k]) <==> |Holders(reports, k, e)| > 1
  {
    SharedLinesMember(common[k], Line(e, Prefix(e, 200), Holders(reports, k, e)));
    if |Holders(reports, k, e)| > 1 {
      assert Holders(reports, k, e) != {};
    }
  }

  /** One section of the HTML report: the "No common ... found." paragraph, or the shared elements. */
  datatype Section = NoneFound(message: string) | Listed(lines: set<Line>)

  /** `add_section(title, elements)`: the message only for a kind with no element at all. */
  function AddSection(title: string, inv: Inversion): Section {
    if |inv| == 0 then NoneFound("No common " + Lower(title) + " found.") else Listed(SharedLines(inv))
  }

  /** A section says that nothing was found exactly when its kind has no element at all. */
  lemma NoneFoundOnlyWhenEmpty(title: string, inv: Inversion)
    ensures AddSection(title, inv).NoneFound? <==> |inv| == 0
    ensures |inv| > 0 ==> AddSection(title, inv) == Listed(SharedLines(inv))
  {
  }

  /** A kind whose only element occurs in one document lists nothing and has no "No common" message either. */
  lemma UnsharedListsNothing(title: string, e: string, p: string)
    ensures AddSection(title, map[e := {p}]) == Listed({})
  {
    var inv := map[e := {p}];
    assert |inv| == 1;
    if l :| l in SharedLines(inv) {
      SharedLinesMember(inv, l);
      assert false;
    }
  }

  function Title(k: Kind): string {
    match k
    case Headers => "Common Headers Across PDFs"
    case Footers => "Common Footers Across PDFs"
    case TextBlocks => "Common Paragraphs/Text Blocks Across PDFs"
    case Tables => "Common Tables Across PDFs"
    case Images => "Common Images Across PDFs"
  }

  /** `generate_comparison_html_report`: the five sections, in kind order. */
  function HtmlSections(common: map<Kind, Inversion>): (r: seq<Section>)
    requires forall k :: k in common
    ensures |r| == |Kinds| && forall i :: 0 <= i < |Kinds| ==> r[i] == AddSection(Title(Kinds[i]), common[Kinds[i]])
  {
    seq(5, i requires 0 <= i < 5 => AddSection(Title(Kinds[i]), common[Kinds[i]]))
  }

  /** `generate_comparison_excel_report`: the rows of each kind, in kind order; the "Type" cell names the kind. */
  function ExcelRows(common: map<Kind, Inversion>): (r: seq<(string, set<Line>)>)
    requires forall k :: k in common
    ensures |r| == |Kinds| && forall i :: 0 <= i < |Kinds| ==> r[i] == (KindName(Kinds[i]), SharedLines(common[Kinds[i]]))
  {
    seq(5, i requires 0 <= i < 5 => (KindName(Kinds[i]), SharedLines(common[Kinds[i]])))
  }

  /** The Excel report lists the lines of each HTML section that lists any, and nothing for a section that found nothing. */
  lemma ExcelMatchesHtml(common: map<Kind, Inversion>, i: nat)
    requires (forall k :: k in common) && i < |Kinds|
    ensures HtmlSections(common)[i].Listed? ==> ExcelRows(common)[i].1 == HtmlSections(common)[i].lines
    ensures HtmlSections(common)[i].NoneFound? ==> ExcelRows(common)[i].1 == {}
  {
    var inv := common[Kinds[i]];
    if |inv| == 0 {
      assert forall l :: l in SharedLines(inv) ==> l.element in inv;
    }
  }

  /** The reports of the first k corpus files, stored under their names; a later file of the same name would replace an earlier one. */
  function StructuresTo(files: seq<Entry>, k: nat): map<string, Structure>
    requires k <= |files|
  {
    if k == 0 then map[]
    else
      var m := StructuresTo(files, k - 1);
      match StructureOf(files[k - 1].file)
      case None => m
      case Some(s) => m[files[k - 1].name := s]
  }

  /** The names of a folder listing are distinct. */
  predicate DistinctNames(files: seq<Entry>) {
    forall i, j :: 0 <= i < j < |files| ==> files[i].name != files[j].name
  }

  /** With distinct names, a document has a report exactly when it is a listed file whose analysis gives that report. */
  lemma {:induction false} StructuresMember(files: seq<Entry>, k: nat, name: string, s: Structure)
    requires k <= |files| && DistinctNames(files)
    ensures name in StructuresTo(files, k) && StructuresTo(files, k)[name] == s
            <==> exists i :: 0 <= i < k && files[i].name == name && StructureOf(files[i].file) == Some(s)
  {
    if k > 0 {
      StructuresMember(files, k - 1, name, s);
      if files[k - 1].name == name && StructureOf(files[k - 1].file) == Some(s) {
      } else if files[k - 1].name == name {
        NameAbsent(files, k - 1, name);
      }
    }
  }

  lemma {:induction false} NameAbsent(files: seq<Entry>, k: nat, name: string)
    requires k < |files| && DistinctNames(files) && files[k].name == name
    ensures name !in StructuresTo(files, k)
  {
    assert forall i :: 0 <= i < k ==> files[i].name != name;
    NameAbsentPrefix(files, k, k, name);
  }

  lemma {:induction false} NameAbsentPrefix(files: seq<Entry>, k: nat, n: nat, name: string)
    requires n <= k < |files| && forall i :: 0 <= i < k ==> files[i].name != name
    ensures name !in StructuresTo(files, n)
  {
    if n > 0 {
      NameAbsentPrefix(files, k, n - 1, name);
    }
  }

  /** The corpus loop: each PDF is analysed and, when it gives a report, the report is stored under its file name. */
  method CollectStructures(files: seq<Entry>) returns (reports: map<string, Structure>)
    ensures reports == StructuresTo(files, |files|)
  {
    reports := map[];
    var k := 0;
    while k < |files|
      invariant k <= |files| && reports == StructuresTo(files, k)
    {
      var report := AnalyzeStructure(files[k].file);
      if report.Some? {
        reports := reports[files[k].name := report.value];
      }
      k := k + 1;
    }
  }

  /** How `analyze_single_vs_all` ends. */
  datatype StructureRun =
    | SingleFolderEmpty
    | NoCorpusPdf
    | SingleFailed
    | Reported(single: Structure, reports: map<string, Structure>, common: map<Kind, Inversion>,
               html: seq<Section>, rows: seq<(string, set<Line>)>)

  /**
   * `analyze_single_vs_all(single_pdf_folder, all_pdf_folder, output_folder)`: the first entry of
   * the single folder (of any name; an empty folder raises) is analysed, and the run stops if
   * the corpus folder has no PDF or the single file gives no report. The structures of the
   * corpus PDFs are then inverted and reported; the single file's report takes no part in the
   * comparison.
   */
  method AnalyzeSingleVsAllStructure(single: seq<Entry>, corpus: seq<Entry>) returns (run: StructureRun)
    ensures |single| == 0 <==> run == SingleFolderEmpty
    ensures run == NoCorpusPdf <==> |single| > 0 && |PdfEntries(corpus)| == 0
    ensures run == SingleFailed <==> |single| > 0 && |PdfEntries(corpus)| > 0 && StructureOf(single[0].file).None?
    ensures |single| > 0 && |PdfEntries(corpus)| > 0 && StructureOf(single[0].file).Some? ==> run.Reported?
    ensures run.Reported? ==>
              |single| > 0 && |PdfEntries(corpus)| > 0
              && StructureOf(single[0].file) == Some(run.single)
              && run.reports == StructuresTo(PdfEntries(corpus), |PdfEntries(corpus)|)
              && Inverts(run.common, run.reports)
              && run.html == HtmlSections(run.common)
              && run.rows == ExcelRows(run.common)
  {
    if |single| == 0 {
      return SingleFolderEmpty;
    }
    var files := PdfEntries(corpus);
    if |files| == 0 {
      return NoCorpusPdf;
    }
    var singleReport := AnalyzeStructure(single[0].file);
    if singleReport.None? {
      return SingleFailed;
    }
    var reports := CollectStructures(files);
    var common := CompareStructures(reports);
    run := Reported(singleReport.value, reports, common, HtmlSections(common), ExcelRows(common));
  }
}
