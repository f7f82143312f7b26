/**
 * The earlier one-vs-many driver: pages that fail to load are skipped rather than failing the
 * document, the combined block and name lists are built by extending them report by report,
 * and the rows carry no colouring.
 */
module OneVsManyLoop {
  import opened Options
  import opened TextNormal
  import opened PdfInput
  import opened ScanOrder
  import opened MatchGroups
  import opened Flatten
  import opened Corpus
  import OneVsMany

  /**
   * The list building of `compare_pdf_structures`: the reference blocks with "Single PDF" once
   * per block, then each report's blocks with its name once per block, in dictionary order.
   */
  method CombineBlocks(reference: seq<string>, reports: Reports) returns (blocks: seq<string>, names: seq<string>)
    ensures blocks == CombinedBlocks(reference, reports)
    ensures names == CombinedNames(reference, reports)
    ensures |blocks| == |names|
  {
    blocks, names := [], [];
    blocks := blocks + reference;
    names := names + Repeat(ReferenceName, |reference|);
    var d := 0;
    while d < |reports|
      invariant 0 <= d <= |reports|
      invariant blocks == reference + BlocksTo(reports, d)
      invariant names == Repeat(ReferenceName, |reference|) + NamesTo(reports, d)
    {
      var (name, report) := reports[d];
      blocks := blocks + report;
      names := names + Repeat(name, |report|);
      d := d + 1;
    }
  }

  /**
   * `compare_pdf_structures(pdf_reports, single_pdf_report)`: the lists are built, vectorised
   * (which raises when no block has a token), and each reference block is compared with each
   * corpus block; a match is filed under the reference block's text.
   */
  method CompareBuilt(reference: seq<string>, reports: Reports, similarity: seq<string> -> seq<seq<real>>)
    returns (c: Comparison)
    requires forall bs :: SquareMatrix(similarity(bs), |bs|)
    ensures !HasVocabulary(CombinedBlocks(reference, reports)) <==> c == NoVocabulary
    ensures c.Compared? ==> c.groups == OneVsMany.OneVsManyGroups(reference, reports, similarity(CombinedBlocks(reference, reports)))
  {
    var blocks, names := CombineBlocks(reference, reports);
    if !HasVocabulary(blocks) {
      return NoVocabulary;
    }
    var sim := similarity(blocks);
    var g := ScanCross(blocks, names, sim, |reference|);
    return Compared(g);
  }

  /**
   * How a run of this `analyze_single_vs_all` ends. Its guard on a failed reference analysis
   * never fires in the model (see `SkippingNeverFails`), so there is no such outcome here.
   */
  datatype LoopRun =
    | NoSinglePdf
    | InvalidReference(name: string)
    | NoValidCorpus
    | VectorizerRaised(reference: seq<string>, reports: Reports)
    | Reported(reference: seq<string>, reports: Reports, groups: Groups, rows: seq<ReportRow>)

  /**
   * `analyze_single_vs_all`: the same guards as the later driver, in the same order; documents
   * are analysed page by page, skipping pages that fail to load, and rows are written without a
   * fill.
   */
  method AnalyzeSingleVsAllSkippingPages(single: seq<Entry>, corpus: seq<Entry>, similarity: seq<string> -> seq<seq<real>>)
    returns (run: LoopRun)
    requires forall bs :: SquareMatrix(similarity(bs), |bs|)
    ensures |PdfEntries(single)| == 0 <==> run == NoSinglePdf
    ensures |PdfEntries(single)| > 0 ==>
              var ref := PdfEntries(single)[0];
              && (run.InvalidReference? <==> !ValidatePdf(ref.file))
              && (run.InvalidReference? ==> run.name == ref.name)
              && (ValidatePdf(ref.file) ==> (run == NoValidCorpus <==> |ValidPdfs(corpus)| == 0))
    ensures run.VectorizerRaised? || run.Reported? ==>
              && |PdfEntries(single)| > 0
              && Analysis(PdfEntries(single)[0].file, LowerStrip, SkipPage) == Some(run.reference)
              && run.reports == CorpusReports(ValidPdfs(corpus), LowerStrip, SkipPage)
              && (run.VectorizerRaised? <==> !HasVocabulary(CombinedBlocks(run.reference, run.reports)))
    ensures run.Reported? ==>
              && run.groups == OneVsMany.OneVsManyGroups(run.reference, run.reports, similarity(CombinedBlocks(run.reference, run.reports)))
              && |run.rows| == |Rows(run.groups)|
              && (forall k :: 0 <= k < |run.rows| ==> run.rows[k] == RowOf(Plain, Rows(run.groups)[k]))
  {
    var pdfs := PdfEntries(single);
    if |pdfs| == 0 {
      return NoSinglePdf;
    }
    var ref := pdfs[0];
    if !ValidatePdf(ref.file) {
      return InvalidReference(ref.name);
    }
    var files := ValidPdfs(corpus);
    if |files| == 0 {
      return NoValidCorpus;
    }
    // `if single_pdf_report is None` cannot hold here: skipping pages, a valid file always has a report.
    var analysis := AnalyzePdf(ref.file, LowerStrip, SkipPage);
    var reference := analysis.value;
    var reports, _, _ := AnalyzeCorpus(files, LowerStrip, SkipPage);
    var c := CompareBuilt(reference, reports, similarity);
    if c.NoVocabulary? {
      return VectorizerRaised(reference, reports);
    }
    var blocks := CombinedBlocks(reference, reports);
    var hits := HitsOf(blocks, CombinedNames(reference, reports), similarity(blocks), CrossPairs(|reference|, |blocks|, |reference|));
    CollectValid(hits, |hits|);
    var rows := TabulateMatches(c.groups, Plain);
    return Reported(reference, reports, c.groups, rows);
  }

  /** Skipping pages, the analysis of a valid document never fails: it holds the blocks of the pages that loaded. */
  lemma SkippingNeverFails(f: PdfFile, mode: Normalizer)
    requires ValidatePdf(f)
    ensures Analysis(f, mode, SkipPage) == Some(DocTexts(f.pages, mode))
  {
  }

  /**
   * A page that fails to load is skipped and the later pages still count: a document whose
   * first page fails and whose second page has a kept block yields that block.
   */
  lemma LaterPagesStillCount(b: Block, mode: Normalizer)
    requires Kept(b, mode)
    ensures Analysis(Opened(false, [LoadFailed, Loaded(0.0, [b])]), mode, SkipPage)
            == Some([Normalize(mode, BlockText(b.spans.value))])
    ensures Analysis(Opened(false, [LoadFailed, Loaded(0.0, [b])]), mode, AbortDocument) == None
  {
    var pages := [LoadFailed, Loaded(0.0, [b])];
    var t := Normalize(mode, BlockText(b.spans.value));
    var blockTexts := (b: Block) => BlockTexts(b, mode);
    var pageTexts := (p: Page) => PageContribution(p, mode);
    assert FlatTo([b], blockTexts, 1) == FlatTo([b], blockTexts, 0) + [t];
    assert PageContribution(pages[1], mode) == [t];
    assert FlatTo(pages, pageTexts, 1) == FlatTo(pages, pageTexts, 0) + PageContribution(pages[0], mode) == [];
    assert FlatTo(pages, pageTexts, 2) == FlatTo(pages, pageTexts, 1) + [t];
    assert !pages[0].Loaded?;
  }
}
