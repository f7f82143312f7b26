/**
 * A PDF as the analysis scripts see it through PyMuPDF: a document that opens or not, may be
 * encrypted, and has pages that load or fail to load; a loaded page has a height and the
 * blocks of `page.get_text("dict")["blocks"]`.
 */
module PdfInput {
  import opened Strings
  import opened Options
  import opened TextNormal
  import opened Flatten

  /**
   * One block of a page. `spans` is present when the block has a "lines" key and lists the
   * texts of its spans, line by line; `hasImage` says the block has an "image" key; `top` is
   * `bbox[1]`; `bboxText` is how Python prints the block's bbox tuple.
   */
  datatype Block = Block(spans: Option<seq<string>>, hasImage: bool, top: real, bboxText: string)

  datatype Page = Loaded(height: real, blocks: seq<Block>) | LoadFailed

  /** What `fitz.open` gives: an error, or a document that may be encrypted. */
  datatype PdfFile = Unopenable | Opened(encrypted: bool, pages: seq<Page>)

  /** The raw text of a block with lines: its span texts joined by newlines, stripped. */
  function BlockText(spans: seq<string>): string {
    Strip(Join("\n", spans))
  }

  /** `validate_pdf`: the file opens and is not encrypted. */
  predicate ValidatePdf(f: PdfFile) {
    f.Opened? && !f.encrypted
  }

  /** `f.lower().endswith('.pdf')` */
  predicate IsPdfName(name: string) {
    EndsWith(Lower(name), ".pdf")
  }

  predicate AllLoaded(pages: seq<Page>) {
    forall p :: 0 <= p < |pages| ==> pages[p].Loaded?
  }

  /** A block enters the similarity comparison when it has lines and at least ten words once normalised. */
  predicate Kept(b: Block, mode: Normalizer) {
    b.spans.Some? && WordCount(Normalize(mode, BlockText(b.spans.value))) >= 10
  }

  /** The normalised text a block contributes: one text if it is kept, none otherwise. */
  function BlockTexts(b: Block, mode: Normalizer): seq<string> {
    if Kept(b, mode) then [Normalize(mode, BlockText(b.spans.value))] else []
  }

  /** The normalised texts of the kept blocks of one page, in block order. */
  function PageTexts(blocks: seq<Block>, mode: Normalizer): seq<string> {
    Flat(blocks, b => BlockTexts(b, mode))
  }

  /** What one page contributes: the texts of its kept blocks if it loaded, nothing if it failed to load. */
  function PageContribution(p: Page, mode: Normalizer): seq<string> {
    if p.Loaded? then PageTexts(p.blocks, mode) else []
  }

  /** The normalised texts of the kept blocks of the loaded pages, in page order and then block order. */
  function DocTexts(pages: seq<Page>, mode: Normalizer): seq<string> {
    Flat(pages, p => PageContribution(p, mode))
  }

  /** Blocks of a page are kept in order: the texts of two runs of blocks are the two runs' texts. */
  lemma PageTextsAppend(a: seq<Block>, b: seq<Block>, mode: Normalizer)
    ensures PageTexts(a + b, mode) == PageTexts(a, mode) + PageTexts(b, mode)
  {
    FlatAppend(a, b, b => BlockTexts(b, mode));
  }

  /** Pages are taken in order: the texts of two runs of pages are the two runs' texts. */
  lemma DocTextsAppend(a: seq<Page>, b: seq<Page>, mode: Normalizer)
    ensures DocTexts(a + b, mode) == DocTexts(a, mode) + DocTexts(b, mode)
  {
    FlatAppend(a, b, p => PageContribution(p, mode));
  }

  /** The texts of the first k + 1 blocks are those of the first k and then block k's. */
  lemma PageTextsStep(blocks: seq<Block>, k: nat, mode: Normalizer)
    requires k < |blocks|
    ensures PageTexts(blocks[..k + 1], mode) == PageTexts(blocks[..k], mode) + BlockTexts(blocks[k], mode)
  {
    assert blocks[..k + 1] == blocks[..k] + [blocks[k]];
    FlatSnoc(blocks[..k], blocks[k], b => BlockTexts(b, mode));
  }

  /** The texts of the first p + 1 pages are those of the first p and then page p's. */
  lemma DocTextsStep(pages: seq<Page>, p: nat, mode: Normalizer)
    requires p < |pages|
    ensures DocTexts(pages[..p + 1], mode) == DocTexts(pages[..p], mode) + PageContribution(pages[p], mode)
  {
    assert pages[..p + 1] == pages[..p] + [pages[p]];
    FlatSnoc(pages[..p], pages[p], p => PageContribution(p, mode));
  }

  /** Block `b` is kept and normalises to `t`. */
  predicate Yields(b: Block, mode: Normalizer, t: string) {
    Kept(b, mode) && t == Normalize(mode, BlockText(b.spans.value))
  }

  /** A text is collected from a page exactly when some block of the page is kept and has that text. */
  lemma PageTextsMembers(blocks: seq<Block>, mode: Normalizer, t: string)
    ensures t in PageTexts(blocks, mode) <==> exists k :: 0 <= k < |blocks| && Yields(blocks[k], mode, t)
  {
    FlatMember(blocks, b => BlockTexts(b, mode), t);
  }

  /** Page p is loaded and one of its blocks yields `t`. */
  predicate PageYields(p: Page, mode: Normalizer, t: string) {
    p.Loaded? && exists k :: 0 <= k < |p.blocks| && Yields(p.blocks[k], mode, t)
  }

  /**
   * A text is collected from a document exactly when some block of some loaded page is kept and
   * has that text.
   */
  lemma DocTextsMembers(pages: seq<Page>, mode: Normalizer, t: string)
    ensures t in DocTexts(pages, mode) <==> exists p :: 0 <= p < |pages| && PageYields(pages[p], mode, t)
  {
    FlatMember(pages, p => PageContribution(p, mode), t);
    forall p | 0 <= p < |pages| && pages[p].Loaded?
      ensures t in PageContribution(pages[p], mode) <==> PageYields(pages[p], mode, t)
    {
      PageTextsMembers(pages[p].blocks, mode, t);
    }
  }

  /** Every collected text of a page has at least ten words. */
  lemma PageTextsWordy(blocks: seq<Block>, mode: Normalizer, c: nat)
    requires c < |PageTexts(blocks, mode)|
    ensures WordCount(PageTexts(blocks, mode)[c]) >= 10
  {
    FlatToAll(blocks, b => BlockTexts(b, mode), |blocks|, t => WordCount(t) >= 10);
  }

  /** What a script does when `doc.load_page` raises: give up on the document, or skip the page. */
  datatype OnPageError = AbortDocument | SkipPage

  /**
   * `analyze_pdf(file)`: nothing for a file that does not open or is encrypted, nothing when a
   * page fails to load and the script gives up on the document, and otherwise the texts of the
   * kept blocks of the loaded pages.
   */
  function Analysis(f: PdfFile, mode: Normalizer, onError: OnPageError): Option<seq<string>> {
    if !ValidatePdf(f) then None
    else if onError == AbortDocument && !AllLoaded(f.pages) then None
    else Some(DocTexts(f.pages, mode))
  }

  /** When every page loads, both scripts' analyses agree. */
  lemma AnalysisAllLoaded(f: PdfFile, mode: Normalizer)
    requires ValidatePdf(f) && AllLoaded(f.pages)
    ensures Analysis(f, mode, AbortDocument) == Analysis(f, mode, SkipPage) == Some(DocTexts(f.pages, mode))
  {
  }

  /**
   * The block loop of `analyze_pdf` over one page: each block with lines is joined, stripped and
   * normalised, and appended when it has at least ten words.
   */
  method CollectPageTexts(blocks: seq<Block>, mode: Normalizer) returns (texts: seq<string>)
    ensures texts == PageTexts(blocks, mode)
  {
    texts := [];
    var k := 0;
    while k < |blocks|
      invariant 0 <= k <= |blocks|
      invariant texts == PageTexts(blocks[..k], mode)
    {
      var b := blocks[k];
      PageTextsStep(blocks, k, mode);
      if b.spans.Some? {
        var text := Normalize(mode, BlockText(b.spans.value));
        if WordCount(text) >= 10 {
          texts := texts + [text];
        }
      }
      k := k + 1;
    }
    assert blocks[..k] == blocks;
  }

  /** A page that fails to load makes a document that gives up on errors yield nothing. */
  lemma FailedPageAborts(f: PdfFile, p: nat, mode: Normalizer)
    requires f.Opened? && p < |f.pages| && f.pages[p].LoadFailed?
    ensures Analysis(f, mode, AbortDocument) == None
  {
  }

  /** Loaded pages so far, one more page that loads. */
  lemma AllLoadedStep(pages: seq<Page>, p: nat)
    requires p < |pages| && AllLoaded(pages[..p]) && pages[p].Loaded?
    ensures AllLoaded(pages[..p + 1])
  {
    assert pages[..p + 1] == pages[..p] + [pages[p]];
  }

  /** `analyze_pdf(file)`: the page loop, which either gives up on the document or skips a page that fails to load. */
  method AnalyzePdf(f: PdfFile, mode: Normalizer, onError: OnPageError) returns (r: Option<seq<string>>)
    ensures r == Analysis(f, mode, onError)
  {
    if f.Unopenable? || f.encrypted {
      return None;
    }
    var texts: seq<string> := [];
    var p := 0;
    while p < |f.pages|
      invariant 0 <= p <= |f.pages|
      invariant onError == AbortDocument ==> AllLoaded(f.pages[..p])
      invariant texts == DocTexts(f.pages[..p], mode)
    {
      var page := f.pages[p];
      if page.LoadFailed? && onError == AbortDocument {
        FailedPageAborts(f, p, mode);
        return None;
      }
      DocTextsStep(f.pages, p, mode);
      if page.Loaded? {
        var more := CollectPageTexts(page.blocks, mode);
        texts := texts + more;
        if onError == AbortDocument {
          AllLoadedStep(f.pages, p);
        }
      }
      p := p + 1;
    }
    assert f.pages[..p] == f.pages;
    return Some(texts);
  }
}
