/**
 * The one-vs-many rationalization driver: the first PDF of a single folder is the reference,
 * every valid PDF of a corpus folder is analysed, and each reference block is compared with
 * every corpus block. Normalisation also deletes whole-word runs of five or more x's.
 */
module OneVsMany {
  import opened Options
  import opened TextNormal
  import opened PdfInput
  import opened ScanOrder
  import opened MatchGroups
  import opened ScanResults
  import opened Corpus

  /** The grouping the one-vs-many scan builds over the reference blocks and the corpus blocks. */
  function OneVsManyGroups(reference: seq<string>, reports: Reports, sim: seq<seq<real>>): Groups {
    var blocks := CombinedBlocks(reference, reports);
    Collect(HitsOf(blocks, CombinedNames(reference, reports), sim, CrossPairs(|reference|, |blocks|, |reference|)))
  }

  /**
   * `compare_pdf_structures(pdf_reports, single_pdf_report)`: the combined blocks are vectorised
   * (which raises when no block has a token) and each reference row is scanned over the corpus
   * columns.
   */
  method CompareOneVsMany(reference: seq<string>, reports: Reports, sim: seq<seq<real>>) returns (c: Comparison)
    requires SquareMatrix(sim, |CombinedBlocks(reference, reports)|)
    ensures !HasVocabulary(CombinedBlocks(reference, reports)) <==> c == NoVocabulary
    ensures c.Compared? ==> c.groups == OneVsManyGroups(reference, reports, sim)
  {
    var blocks, names := CombinedBlocks(reference, reports), CombinedNames(reference, reports);
    if !HasVocabulary(blocks) {
      return NoVocabulary;
    }
    var g := ScanCross(blocks, names, sim, |reference|);
    return Compared(g);
  }

  /** Position k of the combined lists: a reference block named "Single PDF", then the corpus blocks with their documents. */
  lemma CombinedAt(reference: seq<string>, reports: Reports, k: nat)
    requires k < |CombinedBlocks(reference, reports)|
    ensures k < |reference| ==> CombinedBlocks(reference, reports)[k] == reference[k]
                                && CombinedNames(reference, reports)[k] == ReferenceName
    ensures k >= |reference| ==> CombinedBlocks(reference, reports)[k] == AllBlocks(reports)[k - |reference|]
                                 && CombinedNames(reference, reports)[k] == AllNames(reports)[k - |reference|]
  {
  }

  /** A recorded match comes from a reference block i and a corpus block j whose similarity is above 0.1. */
  lemma ReferenceMatchSource(reference: seq<string>, reports: Reports, sim: seq<seq<real>>, key: string, m: Match)
    returns (i: nat, j: nat)
    requires SquareMatrix(sim, |CombinedBlocks(reference, reports)|)
    requires var g := OneVsManyGroups(reference, reports, sim); key in g.lists && m in g.lists[key]
    ensures i < |reference| && j < |AllBlocks(reports)| && sim[i][|reference| + j] > Threshold
    ensures key == reference[i] && m == Match(AllNames(reports)[j], Score(sim[i][|reference| + j]))
  {
    var blocks, names, n := CombinedBlocks(reference, reports), CombinedNames(reference, reports), |reference|;
    OneVsManyMatches(blocks, names, sim, n, key, m);
    var i', j' :| 0 <= i' < n <= j' < |blocks| && sim[i'][j'] > Threshold
                  && key == blocks[i'] && m == Match(names[j'], Score(sim[i'][j']));
    CombinedAt(reference, reports, i');
    CombinedAt(reference, reports, j');
    i, j := i', j' - n;
  }

  /** Every reference block i and corpus block j whose similarity is above 0.1 give a match under block i. */
  lemma ReferenceMatchRecorded(reference: seq<string>, reports: Reports, sim: seq<seq<real>>, i: nat, j: nat)
    requires SquareMatrix(sim, |CombinedBlocks(reference, reports)|)
    requires i < |reference| && j < |AllBlocks(reports)| && sim[i][|reference| + j] > Threshold
    ensures var g, m := OneVsManyGroups(reference, reports, sim), Match(AllNames(reports)[j], Score(sim[i][|reference| + j]));
            reference[i] in g.lists && m in g.lists[reference[i]]
  {
    var blocks, names, n := CombinedBlocks(reference, reports), CombinedNames(reference, reports), |reference|;
    var key, m := reference[i], Match(AllNames(reports)[j], Score(sim[i][n + j]));
    CombinedAt(reference, reports, i);
    CombinedAt(reference, reports, n + j);
    OneVsManyMatches(blocks, names, sim, n, key, m);
    assert 0 <= i < n <= n + j < |blocks| && sim[i][n + j] > Threshold
           && key == blocks[i] && m == Match(names[n + j], Score(sim[i][n + j]));
  }

  /**
   * Every key is the text of a reference block and every match names a corpus document: a
   * reference block is never matched with another reference block.
   */
  lemma KeysFromReferenceDocsFromCorpus(reference: seq<string>, reports: Reports, sim: seq<seq<real>>, key: string, m: Match)
    requires SquareMatrix(sim, |CombinedBlocks(reference, reports)|)
    requires var g := OneVsManyGroups(reference, reports, sim); key in g.lists && m in g.lists[key]
    ensures key in reference
    ensures exists d :: 0 <= d < |reports| && m.doc == reports[d].0
  {
    var i, j := ReferenceMatchSource(reference, reports, sim, key, m);
    var d, _ := FlattenOwner(reports, j);
  }

  /** How a run of `analyze_single_vs_all` ends. */
  datatype OneVsManyRun =
    | NoSinglePdf
    | InvalidReference(name: string)
    | NoValidCorpus
    | ReferenceFailed
    | VectorizerRaised(reference: seq<string>, reports: Reports, processed: nat)
    | Reported(reference: seq<string>, reports: Reports, groups: Groups, rows: seq<ReportRow>, processed: nat)

  /**
   * `analyze_single_vs_all`: the reference is the first PDF listed in the single folder; the run
   * stops when there is none, when it does not validate, when no corpus file validates, or when
   * its analysis fails. The corpus is analysed (completion order taken to be listing order),
   * compared with the reference, and tabulated. `similarity` stands for TF-IDF followed by cosine
   * similarity over the combined blocks.
   */
  method AnalyzeSingleVsAll(single: seq<Entry>, corpus: seq<Entry>, similarity: seq<string> -> seq<seq<real>>)
    returns (run: OneVsManyRun)
    requires forall bs :: SquareMatrix(similarity(bs), |bs|)
    ensures |PdfEntries(single)| == 0 <==> run == NoSinglePdf
    ensures |PdfEntries(single)| > 0 ==>
              var ref := PdfEntries(single)[0];
              && (run.InvalidReference? <==> !ValidatePdf(ref.file))
              && (run.InvalidReference? ==> run.name == ref.name)
              && (ValidatePdf(ref.file) ==> (run == NoValidCorpus <==> |ValidPdfs(corpus)| == 0))
              && (ValidatePdf(ref.file) && |ValidPdfs(corpus)| > 0
                  ==> (run == ReferenceFailed <==> Analysis(ref.file, LowerStripNoXRuns, AbortDocument).None?))
    ensures run.VectorizerRaised? || run.Reported? ==>
              && |PdfEntries(single)| > 0
              && Analysis(PdfEntries(single)[0].file, LowerStripNoXRuns, AbortDocument) == Some(run.reference)
              && run.reports == CorpusReports(ValidPdfs(corpus), LowerStripNoXRuns, AbortDocument)
              && run.processed == |ValidPdfs(corpus)|
              && (run.VectorizerRaised? <==> !HasVocabulary(CombinedBlocks(run.reference, run.reports)))
    ensures run.Reported? ==>
              && run.groups == OneVsManyGroups(run.reference, run.reports, similarity(CombinedBlocks(run.reference, run.reports)))
              && |run.rows| == |Rows(run.groups)|
              && (forall k :: 0 <= k < |run.rows| ==> run.rows[k] == RowOf(Highlighted, Rows(run.groups)[k]))
  {
    var pdfs := PdfEntries(single);
    if |pdfs| == 0 {
      return NoSinglePdf;
    }
    var ref := pdfs[0];
    if !ValidatePdf(ref.file) {
      return InvalidReference(ref.name);
    }
    var files := ValidPdfs(corpus);
    if |files| == 0 {
      return NoValidCorpus;
    }
    var analysis := AnalyzePdf(ref.file, LowerStripNoXRuns, AbortDocument);
    if analysis.None? {
      return ReferenceFailed;
    }
    var reference := analysis.value;
    var reports, _, processed := AnalyzeCorpus(files, LowerStripNoXRuns, AbortDocument);
    var blocks := CombinedBlocks(reference, reports);
    var c := CompareOneVsMany(reference, reports, similarity(blocks));
    if c.NoVocabulary? {
      return VectorizerRaised(reference, reports, processed);
    }
    var hits := HitsOf(blocks, CombinedNames(reference, reports), similarity(blocks), CrossPairs(|reference|, |blocks|, |reference|));
    CollectValid(hits, |hits|);
    var rows := TabulateMatches(c.groups, Highlighted);
    return Reported(reference, reports, c.groups, rows, processed);
  }
}
