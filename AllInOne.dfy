/**
 * The all-vs-all rationalization driver: every valid PDF of one folder is analysed, all kept
 * blocks of all documents are compared pairwise, and the matches, an effort-reduction
 * percentage and a page estimate are reported.
 */
module AllInOne {
  import opened Rounding
  import opened TextNormal
  import opened PdfInput
  import opened ScanOrder
  import opened MatchGroups
  import opened ScanResults
  import opened Corpus

  /**
   * `compare_all_pdfs(pdf_reports)`: the flattened blocks are vectorised (which raises when no
   * block has a token) and every pair i < j above the threshold is filed under block i.
   */
  method CompareAll(reports: Reports, sim: seq<seq<real>>) returns (c: Comparison)
    requires SquareMatrix(sim, |AllBlocks(reports)|)
    ensures !HasVocabulary(AllBlocks(reports)) <==> c == NoVocabulary
    ensures c.Compared? ==> c.groups == AllVsAll(reports, sim)
  {
    var blocks, names := AllBlocks(reports), AllNames(reports);
    if !HasVocabulary(blocks) {
      return NoVocabulary;
    }
    var g := ScanTriangle(blocks, names, sim);
    return Compared(g);
  }

  /** The grouping the all-vs-all scan builds over the flattened reports. */
  function AllVsAll(reports: Reports, sim: seq<seq<real>>): Groups {
    var blocks := AllBlocks(reports);
    Collect(HitsOf(blocks, AllNames(reports), sim, TrianglePairs(|blocks|, |blocks|)))
  }

  /**
   * Two blocks of the same document are compared like any other pair: when block i comes before
   * block j, both from the same report, and their similarity is above 0.1, block i's key lists
   * its own document.
   */
  lemma SameDocumentMatched(reports: Reports, sim: seq<seq<real>>, i: nat, j: nat)
    requires SquareMatrix(sim, |AllBlocks(reports)|)
    requires i < j < |AllBlocks(reports)| && sim[i][j] > Threshold
    requires AllNames(reports)[i] == AllNames(reports)[j]
    ensures var g, blocks := AllVsAll(reports, sim), AllBlocks(reports);
            blocks[i] in g.lists && Match(AllNames(reports)[i], Score(sim[i][j])) in g.lists[blocks[i]]
  {
    var blocks, names := AllBlocks(reports), AllNames(reports);
    AllVsAllMatches(blocks, names, sim, blocks[i], Match(names[j], Score(sim[i][j])));
  }

  /** `matching_blocks / total_blocks` */
  function Share(matching: nat, totalBlocks: nat): real
    requires totalBlocks > 0
  {
    matching as real / totalBlocks as real
  }

  /** The share of a count in a positive total lies between 0 and 1 exactly when the count is at most the total. */
  lemma ShareBounds(matching: nat, totalBlocks: nat)
    requires totalBlocks > 0
    ensures 0.0 <= Share(matching, totalBlocks)
    ensures matching <= totalBlocks ==> Share(matching, totalBlocks) <= 1.0
    ensures matching >= totalBlocks ==> Share(matching, totalBlocks) >= 1.0
    ensures matching == totalBlocks ==> Share(matching, totalBlocks) == 1.0
  {
    var q, t := Share(matching, totalBlocks), totalBlocks as real;
    assert q * t == matching as real;
    ScaleSign(q, t);
  }

  lemma ScaleSign(q: real, t: real)
    requires t > 0.0
    ensures q < 0.0 ==> q * t < 0.0
    ensures q > 1.0 ==> q * t > t
    ensures q < 1.0 ==> q * t < t
  {
  }

  lemma ShareMonotone(m1: nat, m2: nat, totalBlocks: nat)
    requires m1 <= m2 && totalBlocks > 0
    ensures Share(m1, totalBlocks) <= Share(m2, totalBlocks)
  {
  }

  /** `round((matching_blocks / total_blocks) * 100, 2)`, before rounding, in hundredths. */
  function Percent(share: real): real {
    share * 10000.0
  }

  /**
   * `calculate_effort_reduction`: 0 for no blocks, and otherwise matches per block as a
   * percentage rounded to two decimals, in hundredths of a percent.
   */
  function EffortReduction(matching: nat, totalBlocks: nat): (r: int)
    ensures totalBlocks == 0 ==> r == 0
    ensures totalBlocks > 0 ==> -0.5 <= Percent(Share(matching, totalBlocks)) - r as real <= 0.5
    ensures r >= 0
    ensures matching <= totalBlocks ==> r <= 10000
    ensures 0 < totalBlocks == matching ==> r == 10000
  {
    if totalBlocks == 0 then 0
    else
      var x := Percent(Share(matching, totalBlocks));
      ShareBounds(matching, totalBlocks);
      RoundMonotone(0.0, x);
      RoundInteger(0);
      RoundInteger(10000);
      if matching <= totalBlocks then
        RoundMonotone(x, 10000.0);
        Round(x)
      else
        Round(x)
  }

  /** More matches over the same blocks never lower the effort estimate. */
  lemma EffortMonotone(m1: nat, m2: nat, totalBlocks: nat)
    requires m1 <= m2
    ensures EffortReduction(m1, totalBlocks) <= EffortReduction(m2, totalBlocks)
  {
    if totalBlocks > 0 {
      ShareMonotone(m1, m2, totalBlocks);
      RoundMonotone(Percent(Share(m1, totalBlocks)), Percent(Share(m2, totalBlocks)));
    }
  }

  /** n(n - 1)/2 matches over n blocks are (n - 1) * 50 %. */
  lemma EffortOfPairs(n: nat, m: nat)
    requires n >= 1 && 2 * m == n * (n - 1)
    ensures EffortReduction(m, n) == (n - 1) * 5000
  {
    var v := (n - 1) as real / 2.0;
    assert m as real == v * n as real;
    assert Share(m, n) == v;
    RoundInteger((n - 1) * 5000);
  }

  /**
   * The estimate is not bounded by 100 %: every match counts, not every matched block, so n
   * mutually similar blocks give (n - 1) * 50 %, more than 100 % from four blocks on.
   */
  lemma EffortExceedsHundred(reports: Reports, sim: seq<seq<real>>)
    requires SquareMatrix(sim, |AllBlocks(reports)|)
    requires forall i, j :: 0 <= i < j < |AllBlocks(reports)| ==> sim[i][j] > Threshold
    requires |AllBlocks(reports)| >= 4
    ensures EffortReduction(TotalMatches(AllVsAll(reports, sim)), TotalBlocks(reports))
            == (|AllBlocks(reports)| - 1) * 5000 > 10000
  {
    var blocks := AllBlocks(reports);
    AllSimilarMatchCount(blocks, AllNames(reports), sim);
    TotalBlocksIsLength(reports);
    EffortOfPairs(|blocks|, TotalMatches(AllVsAll(reports, sim)));
  }

  function Max(a: int, b: int): int {
    if a < b then b else a
  }

  /** `total_pages * (1 - reduction_ratio)` */
  function PagesLeft(totalPages: nat, share: real): real {
    totalPages as real * (1.0 - share)
  }

  /** A larger share leaves fewer pages, and never more than there were. */
  lemma PagesLeftAntitone(totalPages: nat, s1: real, s2: real)
    requires s1 <= s2
    ensures PagesLeft(totalPages, s2) <= PagesLeft(totalPages, s1)
  {
    var p := totalPages as real;
    assert p * s1 <= p * s2;
  }

  /**
   * `calculate_page_reduction`: the pages unchanged for no blocks, and otherwise the pages scaled
   * by the unmatched share of the blocks, rounded, and never below one.
   */
  function PageReduction(totalBlocks: nat, matching: nat, totalPages: nat): (r: int)
    ensures totalBlocks == 0 ==> r == totalPages
    ensures totalBlocks > 0 ==> r >= 1
    ensures totalBlocks > 0 ==> r <= Max(1, totalPages)
    ensures totalBlocks > 0 && r > 1 ==> -0.5 <= PagesLeft(totalPages, Share(matching, totalBlocks)) - r as real <= 0.5
    ensures totalBlocks > 0 && matching == 0 ==> r == Max(1, totalPages)
  {
    if totalBlocks == 0 then totalPages
    else
      var x := PagesLeft(totalPages, Share(matching, totalBlocks));
      ShareBounds(matching, totalBlocks);
      PagesLeftAntitone(totalPages, 0.0, Share(matching, totalBlocks));
      assert PagesLeft(totalPages, 0.0) == totalPages as real;
      RoundMonotone(x, totalPages as real);
      RoundInteger(totalPages);
      Max(1, Round(x))
  }

  /** More matches over the same blocks never raise the page estimate. */
  lemma PageReductionAntitone(totalBlocks: nat, m1: nat, m2: nat, totalPages: nat)
    requires m1 <= m2
    ensures PageReduction(totalBlocks, m2, totalPages) <= PageReduction(totalBlocks, m1, totalPages)
  {
    if totalBlocks > 0 {
      var s1, s2 := Share(m1, totalBlocks), Share(m2, totalBlocks);
      ShareMonotone(m1, m2, totalBlocks);
      PagesLeftAntitone(totalPages, s1, s2);
      RoundMonotone(PagesLeft(totalPages, s2), PagesLeft(totalPages, s1));
    }
  }

  /** Once the matches reach the number of blocks, the estimate is a single page. */
  lemma PageReductionFloor(totalBlocks: nat, matching: nat, totalPages: nat)
    requires 0 < totalBlocks <= matching
    ensures PageReduction(totalBlocks, matching, totalPages) == 1
  {
    ShareBounds(matching, totalBlocks);
    PagesLeftAntitone(totalPages, 1.0, Share(matching, totalBlocks));
    assert PagesLeft(totalPages, 1.0) == 0.0;
    RoundMonotone(PagesLeft(totalPages, Share(matching, totalBlocks)), 0.0);
    RoundInteger(0);
  }

  /**
   * The driver passes the block count as the page count, so the estimate is the number of
   * unmatched blocks (at least one), not a number of pages.
   */
  lemma PagesAreBlocks(totalBlocks: nat, matching: nat)
    requires 0 < totalBlocks
    ensures PageReduction(totalBlocks, matching, totalBlocks) == Max(1, totalBlocks - matching)
  {
    var t, s := totalBlocks as real, Share(matching, totalBlocks);
    assert s * t == matching as real;
    assert PagesLeft(totalBlocks, s) == t - s * t;
    RoundInteger(totalBlocks - matching);
  }

  /** How a run of `analyze_all_vs_all` ends. */
  datatype AllVsAllRun =
    | NoValidFiles
    | VectorizerRaised(reports: Reports)
    | Reported(reports: Reports, groups: Groups, rows: seq<ReportRow>, totalBlocks: nat, totalPages: nat,
               effort: int, pagesAfter: int)

  /**
   * `analyze_all_vs_all`: the folder listing is filtered to valid PDFs, each is analysed (the
   * completion order of the worker pool is taken to be the listing order), the reports are
   * compared, tabulated and summarised. `similarity` stands for TF-IDF followed by cosine
   * similarity over the flattened blocks.
   */
  method AnalyzeAllVsAll(entries: seq<Entry>, similarity: seq<string> -> seq<seq<real>>) returns (run: AllVsAllRun)
    requires forall bs :: SquareMatrix(similarity(bs), |bs|)
    ensures |ValidPdfs(entries)| == 0 <==> run == NoValidFiles
    ensures var reports := CorpusReports(ValidPdfs(entries), LowerStrip, AbortDocument);
            |ValidPdfs(entries)| > 0 ==> (run == VectorizerRaised(reports) <==> !HasVocabulary(AllBlocks(reports)))
    ensures var reports := CorpusReports(ValidPdfs(entries), LowerStrip, AbortDocument);
            |ValidPdfs(entries)| > 0 && HasVocabulary(AllBlocks(reports)) ==> run.Reported?
    ensures run.Reported? ==>
              var reports := CorpusReports(ValidPdfs(entries), LowerStrip, AbortDocument);
              && HasVocabulary(AllBlocks(reports))
              && run.reports == reports
              && run.groups == AllVsAll(reports, similarity(AllBlocks(reports)))
              && run.totalBlocks == run.totalPages == |AllBlocks(reports)|
              && |run.rows| == |Rows(run.groups)|
              && (forall k :: 0 <= k < |run.rows| ==> run.rows[k] == RowOf(Highlighted, Rows(run.groups)[k]))
              && run.effort == EffortReduction(TotalMatches(run.groups), run.totalBlocks)
              && run.pagesAfter == PageReduction(run.totalBlocks, TotalMatches(run.groups), run.totalPages)
  {
    var files := ValidPdfs(entries);
    if |files| == 0 {
      return NoValidFiles;
    }
    var reports, totalPages, _ := AnalyzeCorpus(files, LowerStrip, AbortDocument);
    var blocks := AllBlocks(reports);
    var c := CompareAll(reports, similarity(blocks));
    if c.NoVocabulary? {
      return VectorizerRaised(reports);
    }
    var g := c.groups;
    var totalBlocks := TotalBlocks(reports);
    TotalBlocksIsLength(reports);
    var hits := HitsOf(blocks, AllNames(reports), similarity(blocks), TrianglePairs(|blocks|, |blocks|));
    CollectValid(hits, |hits|);
    var rows := TabulateMatches(g, Highlighted);
    var matching := TotalMatches(g);
    var effort := EffortReduction(matching, totalBlocks);
    var pagesAfter := PageReduction(totalBlocks, matching, totalPages);
    return Reported(reports, g, rows, totalBlocks, totalPages, effort, pagesAfter);
  }
}
