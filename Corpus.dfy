/**
 * The corpus side of the rationalization drivers: the folder listing filtered to valid PDFs,
 * and the per-document reports collected from the analysis of each one.
 */
module Corpus {
  import opened Options
  import opened TextNormal
  import opened PdfInput
  import opened Flatten
  import opened MatchGroups

  /** One directory entry: its file name and the file behind it. */
  datatype Entry = Entry(name: string, file: PdfFile)

  /** What the name filter keeps of one entry: it when its name ends in ".pdf", any case. */
  function PdfOnly(e: Entry): seq<Entry> {
    if IsPdfName(e.name) then [e] else []
  }

  /** `[f for f in os.listdir(folder) if f.lower().endswith('.pdf')]`, in listing order. */
  function PdfEntries(entries: seq<Entry>): seq<Entry> {
    Flat(entries, PdfOnly)
  }

  /** `pdf_files[0]` is the first listed entry with a PDF name. */
  lemma FirstPdf(entries: seq<Entry>) returns (i: nat)
    requires |PdfEntries(entries)| > 0
    ensures i < |entries| && PdfEntries(entries)[0] == entries[i] && IsPdfName(entries[i].name)
    ensures forall j :: 0 <= j < i ==> !IsPdfName(entries[j].name)
  {
    i := FlatToFirst(entries, PdfOnly, |entries|);
  }

  /** The name filter keeps nothing exactly when no entry has a PDF name. */
  lemma NoPdf(entries: seq<Entry>)
    ensures |PdfEntries(entries)| == 0 <==> forall i :: 0 <= i < |entries| ==> !IsPdfName(entries[i].name)
  {
    if |PdfEntries(entries)| == 0 {
      forall i | 0 <= i < |entries|
        ensures !IsPdfName(entries[i].name)
      {
        FlatToEmpty(entries, PdfOnly, |entries|, i);
      }
    } else {
      var _ := FirstPdf(entries);
    }
  }

  /** What the filters keep of one entry: it when its name ends in ".pdf", any case, and it opens unencrypted. */
  function KeepIfValid(e: Entry): seq<Entry> {
    if IsPdfName(e.name) && ValidatePdf(e.file) then [e] else []
  }

  /**
   * `[f for f in os.listdir(folder) if f.lower().endswith('.pdf')]` followed by
   * `[pdf for pdf in files if validate_pdf(pdf)]`, in listing order.
   */
  function ValidPdfs(entries: seq<Entry>): seq<Entry> {
    Flat(entries, KeepIfValid)
  }

  /** An entry survives the filters exactly when it is listed, has a PDF name and validates. */
  lemma ValidPdfsMember(entries: seq<Entry>, e: Entry)
    ensures e in ValidPdfs(entries) <==> e in entries && IsPdfName(e.name) && ValidatePdf(e.file)
  {
    FlatMember(entries, KeepIfValid, e);
    if e in entries && IsPdfName(e.name) && ValidatePdf(e.file) {
      var i :| 0 <= i < |entries| && entries[i] == e;
      assert e in KeepIfValid(entries[i]);
    }
  }

  /** `pdf_reports[name] = report` for one analysed file, when the analysis gives a report. */
  function ReportOf(e: Entry, mode: Normalizer, onError: OnPageError): Reports {
    match Analysis(e.file, mode, onError)
    case None => []
    case Some(blocks) => [(e.name, blocks)]
  }

  /** The reports of the files, in the order in which their analyses are collected. */
  function CorpusReports(files: seq<Entry>, mode: Normalizer, onError: OnPageError): Reports {
    Flat(files, e => ReportOf(e, mode, onError))
  }

  /** The reports of the first k + 1 files are those of the first k and then file k's. */
  lemma CorpusReportsStep(files: seq<Entry>, k: nat, mode: Normalizer, onError: OnPageError)
    requires k < |files|
    ensures CorpusReports(files[..k + 1], mode, onError) == CorpusReports(files[..k], mode, onError) + ReportOf(files[k], mode, onError)
  {
    assert files[..k + 1] == files[..k] + [files[k]];
    FlatSnoc(files[..k], files[k], e => ReportOf(e, mode, onError));
  }

  /** A document has a report exactly when it is one of the files and its analysis succeeds with those blocks. */
  lemma CorpusReportsMember(files: seq<Entry>, mode: Normalizer, onError: OnPageError, name: string, blocks: seq<string>)
    ensures (name, blocks) in CorpusReports(files, mode, onError)
            <==> exists i :: 0 <= i < |files| && files[i].name == name && Analysis(files[i].file, mode, onError) == Some(blocks)
  {
    FlatMember(files, e => ReportOf(e, mode, onError), (name, blocks));
  }

  /**
   * The collection loop of the drivers over the analysed files: a report is stored under the
   * file's name when there is one (`if report:` holds for every report dictionary), the number
   * of its blocks is added to a running total, and every completed analysis is counted.
   */
  method AnalyzeCorpus(files: seq<Entry>, mode: Normalizer, onError: OnPageError)
    returns (reports: Reports, blockCount: nat, processed: nat)
    ensures reports == CorpusReports(files, mode, onError)
    ensures blockCount == TotalBlocks(reports) == |AllBlocks(reports)|
    ensures processed == |files|
  {
    reports, blockCount, processed := [], 0, 0;
    var k := 0;
    while k < |files|
      invariant 0 <= k <= |files| && processed == k
      invariant reports == CorpusReports(files[..k], mode, onError)
      invariant blockCount == TotalBlocks(reports)
    {
      var e := files[k];
      CorpusReportsStep(files, k, mode, onError);
      var report := AnalyzePdf(e.file, mode, onError);
      if report.Some? {
        ReportsSnoc(reports, (e.name, report.value));
        reports := reports + [(e.name, report.value)];
        blockCount := blockCount + |report.value|;
      }
      processed := processed + 1;
      k := k + 1;
    }
    assert files[..k] == files;
    TotalBlocksIsLength(reports);
  }
}
