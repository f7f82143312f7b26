# PDF rationalization and HTML rule extraction, in Dafny

The repository holds two groups of small Python scripts.

**PDF rationalization.** The scripts read a folder of PDF forms and look for text that several
forms share, so that the templates behind them can be merged.

- `06_rationalization/All_In_One/script.py` compares every kept text block with every later one.
- `06_rationalization/1vsN/script.py` compares one reference PDF with a corpus; it removes
  redaction runs of x's.
- `06_rationalization/script.py` is the same comparison with its lists built by loops; it skips
  a page that fails to load.
- `05_padfrationalizationpdfparalle.py` (and its byte-identical copy
  `padfrationalizationpdfparalle.py`) sorts the blocks of each document into headers, footers,
  text blocks, tables and images. It then inverts the per-document reports into "element →
  documents" and lists the elements shared by more than one document.

**HTML rule extraction.** The scripts read HTML exports of a rules engine and write the rules,
functions and formulas they find into a spreadsheet.

- `07_html_excel_rule_extraction/code/extract_rules.py` routes blocks by the section heading
  before them.
- `07_html_excel_rule_extraction/extract_rules.py` reads `<div class="rule">` blocks with "R" headings.
- `07_html_excel_rule_extraction/script.py` reads every rule block that has a heading and a formula.
- `07_html_excel_rule_extraction/extract_functions.py` reads the blocks with an "F" heading.
- `script.py` at the root pairs each `<pre>` formula with the nearest `<a>` before it.

The libraries become inputs:

- a PDF is a `PdfInput.PdfFile`: pages of blocks with their spans, image flag and top coordinate;
- an HTML page is an `Html.Document`: the elements in document order, each with its tag, classes,
  `align`, the end of its subtree, its strings and its markup;
- the TF-IDF/cosine similarity of a list of blocks is a function parameter that returns a square
  matrix of reals.

On these inputs the model follows the scripts' own steps:

- the page/block loops, the pair scans, the `defaultdict` grouping and the set inversion;
- the first-match keyword classifiers and the regular-expression id parsers;
- the `find`, `find_all` and `find_previous` selections;
- the file-name filters, the early-exit guards, and the sheet rows and column widths.

Each step is proved against a specification function, and the promised properties are proved
as lemmas.

Shared modules:

- `Strings`: Python `str` semantics for `strip`, `split`, `lower`, `in`, `startswith`,
  `endswith` and slicing;
- `Rounding`: round half to even;
- `Keywords`: first-match keyword tables;
- `TextNormal`: the `normalize_text` variants;
- `PdfInput`, `Corpus`: PDF input and the listing filters;
- `ScanOrder`, `MatchGroups`, `ScanResults`: pair scans and match grouping;
- `Html`: selections and `get_text`;
- `Patterns`: regular expressions;
- `SheetLayout`: column widths;
- `Flatten`: generic folds;
- `Options`.

There is one module per script:

- `AllInOne`, `OneVsMany`, `OneVsManyLoop` and `StructureInversion` for the PDF scripts;
- `SectionedRules`, `RuleSheet`, `RuleFormula`, `FunctionSheet` and `FormulaScan` for the HTML scripts.

Where the code and its comments disagree, the model follows the code:

- `calculate_page_reduction` is passed the block count as `total_pages`;
- the effort "percentage" can exceed 100;
- the `F` test in `07_html_excel_rule_extraction/extract_rules.py` is subsumed by the `^R` match
  that follows it.

## Model

| member | source | states |
|---|---|---|
| Strings.StripSpec | 06_rationalization/All_In_One/script.py:15-16 | `strip()` neither starts nor ends with whitespace, is empty exactly when the text is all whitespace, and is otherwise the text from its first to its last non-whitespace character |
| Strings.StripParts | 06_rationalization/All_In_One/script.py:44 | `strip()` removes only whitespace: the text is leading whitespace, its strip, and trailing whitespace |
| Strings.StripIdempotent | 06_rationalization/All_In_One/script.py:44-45 | stripping twice is stripping once |
| Strings.StripKeeps | script.py:44-49 | stripping keeps every occurrence of a text that neither starts nor ends with whitespace, so a stripped `<pre>` still mentions "Formula:" |
| Strings.SplitWords | 06_rationalization/All_In_One/script.py:48 | the words of `split()` are non-empty and contain no whitespace |
| Strings.Prefix | 05_padfrationalizationpdfparalle.py:136 | `s[:n]` is a prefix of `s` of length `min(n, len(s))` |
| Strings.LowerIdempotent | 07_html_excel_rule_extraction/script.py:39 | lower-casing twice is lower-casing once |
| TextNormal.LowerStripSpec | 06_rationalization/All_In_One/script.py:15-16 | `text.lower().strip()` is the lowered text without its leading and trailing whitespace; it has no capital letter and neither starts nor ends with whitespace |
| TextNormal.LowerHasNoUpper | 06_rationalization/script.py:12-13 | a lowered text has no capital letter |
| TextNormal.LowerStripIdempotent | 06_rationalization/All_In_One/script.py:15-16 | normalising twice is normalising once |
| TextNormal.DropXRunsKeepsOthers | 06_rationalization/1vsN/script.py:18 | removing the x-runs deletes nothing but x's: every other character keeps its number of occurrences |
| TextNormal.DropXRunsShorter | 06_rationalization/1vsN/script.py:18 | removing the x-runs never lengthens the text |
| TextNormal.DropXRunsNoX | 06_rationalization/1vsN/script.py:18 | a text without x's is left unchanged |
| TextNormal.RedactedTail | 06_rationalization/1vsN/script.py:16-19 | the x-runs are removed after the strip, so "Policy XXXXX" normalises to "policy " with a trailing space |
| TextNormal.TrailingRunDropped | 06_rationalization/1vsN/script.py:18 | a whole-word run of five x's at the end is removed |
| TextNormal.ShortRunKept | 06_rationalization/1vsN/script.py:18 | a run of fewer than five x's stays |
| TextNormal.InWordRunKept | 06_rationalization/1vsN/script.py:18 | a run that follows a letter stays, since `\b` does not hold there |
| Rounding.Round | 06_rationalization/All_In_One/script.py:168 | `round` gives an integer within 0.5 of its argument, and an even one on a tie |
| Rounding.RoundInteger | 06_rationalization/All_In_One/script.py:176 | rounding an integer gives it back |
| Rounding.RoundMonotone | 06_rationalization/All_In_One/script.py:176 | rounding is monotone |
| Keywords.FirstMatch | 07_html_excel_rule_extraction/code/extract_rules.py:30-38 | the default when no keyword occurs; otherwise the label of a rule whose keyword occurs and before which no keyword occurs |
| Keywords.FirstMatchLabel | 07_html_excel_rule_extraction/extract_rules.py:38-41 | the result is one of the table's labels or the default |
| PdfInput.PageTextsAppend | 06_rationalization/All_In_One/script.py:42-49 | blocks are kept in order: the texts of two runs of blocks are the two runs' texts, one after the other |
| PdfInput.DocTextsAppend | 06_rationalization/All_In_One/script.py:39-49 | pages are taken in order: the texts of two runs of pages are the two runs' texts, one after the other |
| PdfInput.PageTextsStep | 06_rationalization/All_In_One/script.py:42-49 | the texts of k + 1 blocks are those of the first k, then block k's |
| PdfInput.DocTextsStep | 06_rationalization/All_In_One/script.py:39-49 | the texts of p + 1 pages are those of the first p, then page p's |
| PdfInput.PageTextsMembers | 06_rationalization/All_In_One/script.py:42-49 | a text is collected from a page if and only if some block has lines, and its normalised text is that text and has at least ten words |
| PdfInput.DocTextsMembers | 06_rationalization/All_In_One/script.py:39-49 | a text is collected from a document if and only if some block of some loaded page yields it |
| PdfInput.PageTextsWordy | 06_rationalization/1vsN/script.py:47-52 | every collected text has at least ten words, counted after normalisation |
| PdfInput.AnalysisAllLoaded | 06_rationalization/script.py:39-44 | when every page loads, giving up on the document and skipping the page give the same blocks |
| PdfInput.CollectPageTexts | 06_rationalization/All_In_One/script.py:42-49 | the block loop collects exactly the page's texts, as specified |
| PdfInput.FailedPageAborts | 06_rationalization/All_In_One/script.py:39-55 | a page that fails to load inside the `try` makes `analyze_pdf` return None |
| PdfInput.AnalyzePdf | 06_rationalization/All_In_One/script.py:31-55 | the page loop gives None for an unopenable or encrypted file, and otherwise the document's texts; a failing page either aborts the document or is skipped, depending on the script |
| Corpus.FirstPdf | 06_rationalization/1vsN/script.py:168-173 | the reference is the first listed entry with a PDF name |
| Corpus.NoPdf | 06_rationalization/1vsN/script.py:168-171 | the name filter keeps nothing if and only if no entry ends in ".pdf", in any case |
| Corpus.ValidPdfsMember | 06_rationalization/All_In_One/script.py:180-181 | an entry survives both filters if and only if it is listed, ends in ".pdf" and opens unencrypted |
| Corpus.CorpusReportsStep | 06_rationalization/All_In_One/script.py:191-197 | the reports of k + 1 files are those of the first k, then file k's |
| Corpus.CorpusReportsMember | 06_rationalization/All_In_One/script.py:189-197 | a document has a report with given blocks if and only if it is one of the files and its analysis gives those blocks |
| Corpus.AnalyzeCorpus | 06_rationalization/All_In_One/script.py:187-197 | the collection loop stores each successful report under the file's name, adds up its blocks, and counts every processed file |
| ScanOrder.RowPairs | 06_rationalization/All_In_One/script.py:67 | the inner loop at row i visits hi - lo pairs |
| ScanOrder.RowPairsAt | 06_rationalization/All_In_One/script.py:67 | the k-th pair of row i is (i, lo + k) |
| ScanOrder.RowPairsOrdered | 06_rationalization/All_In_One/script.py:67 | one row's pairs come in increasing column order |
| ScanOrder.InRow | 06_rationalization/All_In_One/script.py:67 | a pair is visited by row i's inner loop if and only if it lies in row i between lo and hi |
| ScanOrder.TriangleAt | 06_rationalization/All_In_One/script.py:66-67 | every pair of the all-vs-all scan lies above the diagonal |
| ScanOrder.TriangleMember | 06_rationalization/All_In_One/script.py:66-67 | the all-vs-all scan visits exactly the pairs i < j: no block is compared with itself, and same-document pairs are included |
| ScanOrder.TrianglePairsOrdered | 06_rationalization/All_In_One/script.py:66-67 | the all-vs-all scan goes row by row, then column by column, so each unordered pair is scored once |
| ScanOrder.TrianglePairsCount | 06_rationalization/All_In_One/script.py:66-67 | n blocks give n(n - 1)/2 scored pairs |
| ScanOrder.CrossAt | 06_rationalization/1vsN/script.py:69-70 | every pair of the one-vs-many scan pairs a reference row with a corpus column |
| ScanOrder.CrossMember | 06_rationalization/1vsN/script.py:69-70 | the one-vs-many scan visits exactly the pairs i < n <= j; no reference-reference or corpus-corpus pair is scored |
| ScanOrder.CrossPairsOrdered | 06_rationalization/1vsN/script.py:69-70 | the one-vs-many scan goes row by row, then column by column |
| ScanOrder.CrossPairsCount | 06_rationalization/1vsN/script.py:69-70 | n reference rows against m corpus columns give n * m pairs |
| MatchGroups.CollectToPrefix | 06_rationalization/All_In_One/script.py:59-70 | hits appended later do not change the dictionary built from the earlier ones |
| MatchGroups.CollectSnoc | 06_rationalization/All_In_One/script.py:70 | one more hit appends its match to its key's list |
| MatchGroups.AppendValid | 06_rationalization/All_In_One/script.py:70 | appending to the `defaultdict(list)` keeps it well formed: every key is listed once and has a list |
| MatchGroups.CollectValid | 06_rationalization/All_In_One/script.py:59-70 | the dictionary built from any hits is well formed |
| MatchGroups.CollectKey | 06_rationalization/All_In_One/script.py:70 | a key is present if and only if some hit is filed under it |
| MatchGroups.CollectList | 06_rationalization/All_In_One/script.py:70 | a key's list is the matches of its hits, in hit order |
| MatchGroups.CollectOrder | 06_rationalization/All_In_One/script.py:105 | keys are listed in the order of their first hits |
| MatchGroups.CollectSpec | 06_rationalization/All_In_One/script.py:59-70 | the grouping as a whole: well formed, keys exactly the hit keys, each list the key's matches in scan order (so never empty, and identical texts share one key), keys in first-hit order |
| MatchGroups.MatchesToFrom | 06_rationalization/All_In_One/script.py:70 | every match recorded under a key comes from a hit filed under that key |
| MatchGroups.HitsUnder | 06_rationalization/All_In_One/script.py:106-107 | one key's list gives one row per match |
| MatchGroups.SumIsRowCount | 06_rationalization/All_In_One/script.py:165 | the sum of the list lengths is the number of report rows |
| MatchGroups.RowsAppend | 06_rationalization/All_In_One/script.py:134-137 | appending a hit adds exactly that hit to the rows |
| MatchGroups.RowsToPermutation | 06_rationalization/All_In_One/script.py:134-137 | the rows after k hits are those hits, rearranged |
| MatchGroups.RowsArePermutation | 06_rationalization/All_In_One/script.py:134-137 | the report has one row per recorded hit and nothing else (a permutation of the hits), and their number is the sum of the list lengths |
| MatchGroups.HitsOfAppend | 06_rationalization/All_In_One/script.py:66-70 | scanning two runs of pairs gives the first run's hits, then the second's |
| MatchGroups.HitsAreKept | 06_rationalization/All_In_One/script.py:68-70 | the hits are the kept pairs, one for one and in order |
| MatchGroups.KeptMember | 06_rationalization/All_In_One/script.py:69 | a pair is kept if and only if it is scanned and its similarity is strictly above 0.1 |
| MatchGroups.KeptOrdered | 06_rationalization/All_In_One/script.py:66-69 | kept pairs keep the scan order |
| MatchGroups.HitsAreKeptPairs | 06_rationalization/All_In_One/script.py:66-70 | the hits are exactly the scanned pairs above the threshold, one for one and in scan order |
| MatchGroups.RecordStep | 06_rationalization/All_In_One/script.py:68-70 | one more scanned pair records its match on top of the grouping so far |
| MatchGroups.RowStep | 06_rationalization/All_In_One/script.py:67-70 | visiting pair (i, j) after (i, lo) … (i, j - 1) records it on top of their grouping |
| MatchGroups.RecordRowIsCollect | 06_rationalization/All_In_One/script.py:67-70 | recording a row on top of a grouping groups the earlier hits followed by the row's |
| MatchGroups.TriangleScanIsCollect | 06_rationalization/All_In_One/script.py:66-70 | scanning rows 0 … i - 1 one by one groups the hits of those rows in scan order |
| MatchGroups.CrossScanIsCollect | 06_rationalization/1vsN/script.py:69-73 | the same for the one-vs-many rows |
| MatchGroups.ScanRow | 06_rationalization/All_In_One/script.py:67-70 | the inner loop records each pair of the row that passes the threshold |
| MatchGroups.ScanTriangle | 06_rationalization/All_In_One/script.py:66-70 | the nested loops build the grouping of the upper-triangle hits |
| MatchGroups.ScanCross | 06_rationalization/1vsN/script.py:69-73 | the nested loops build the grouping of the reference-by-corpus hits |
| MatchGroups.Repeat | 06_rationalization/1vsN/script.py:64 | `[s] * n` has n copies of s |
| MatchGroups.NamesTo | 06_rationalization/All_In_One/script.py:61 | the names of the first d reports are as many as their blocks |
| MatchGroups.AllNames | 06_rationalization/All_In_One/script.py:60-61 | the flattened name list is as long as the flattened block list |
| MatchGroups.TotalBlocksIsLength | 06_rationalization/All_In_One/script.py:208 | `total_blocks` is the length of the flattened block list |
| MatchGroups.FlattenOwner | 06_rationalization/All_In_One/script.py:60-61 | block k of the flattened list is a block of some document d, and name k is d's name |
| MatchGroups.ReportsPrefix | 06_rationalization/All_In_One/script.py:60-61 | later reports do not change the lists and total of the earlier ones |
| MatchGroups.ReportsSnoc | 06_rationalization/script.py:79-81 | extending by one report adds its blocks, its name once per block, and its block count |
| MatchGroups.CombinedNames | 06_rationalization/1vsN/script.py:63-64 | the combined name list is as long as the combined block list |
| MatchGroups.RowHighlight | 06_rationalization/All_In_One/script.py:105-108 | a row carries "Text Block", its key, document and score; a coloured row is green if and only if the score is 100 %, otherwise yellow; a plain row has no fill |
| MatchGroups.TabulateMatches | 06_rationalization/All_In_One/script.py:134-137 | the row loops give one row per (key, match), in dictionary order then list order, styled as above |
| MatchGroups.TabulateStep | 06_rationalization/All_In_One/script.py:134-137 | one key's rows, after those of the earlier keys, give the rows of one key more |
| ScanResults.MatchesToMember | 06_rationalization/All_In_One/script.py:68-70 | a match is filed under a key among the first k hits if and only if one of those hits is that pair |
| ScanResults.MatchesToPosition | 06_rationalization/All_In_One/script.py:68-70 | the a-th match of a key comes from a hit with exactly a matches of that key before it |
| ScanResults.CollectHas | 06_rationalization/All_In_One/script.py:70 | the grouping files m under a key if and only if that hit occurred |
| ScanResults.HitsOfHas | 06_rationalization/All_In_One/script.py:66-70 | a hit comes out of a scan if and only if some scanned pair passes and produces it |
| ScanResults.ScanMatches | 06_rationalization/All_In_One/script.py:66-70 | a scan files m under a key if and only if some scanned pair passes, has that key as its row text, and gives m |
| ScanResults.ScanMatchOrder | 06_rationalization/All_In_One/script.py:66-70 | the matches of one key come in scan order: matches a < b come from pairs p before q |
| ScanResults.AllVsAllMatches | 06_rationalization/All_In_One/script.py:66-70 | all-vs-all files (name j, score) under the text of block i if and only if i < j and their similarity is strictly above 0.1 |
| ScanResults.OneVsManyMatches | 06_rationalization/1vsN/script.py:69-73 | one-vs-many files (name j, score) under reference block i if and only if i < n <= j and their similarity is strictly above 0.1 |
| ScanResults.AllVsAllMatchOrder | 06_rationalization/All_In_One/script.py:66-70 | matches a < b of one key come from pairs (i, j), (i', j') with i < j, i' < j', visited in that order |
| ScanResults.OneVsManyMatchOrder | 06_rationalization/1vsN/script.py:69-73 | likewise for the reference-by-corpus pairs |
| ScanResults.KeptAll | 06_rationalization/All_In_One/script.py:69 | when every scanned pair passes, every pair is kept |
| ScanResults.AllSimilarMatchCount | 06_rationalization/All_In_One/script.py:66-70 | n mutually similar blocks give n(n - 1)/2 matches: one per unordered pair, not one per block |
| AllInOne.CompareAll | 06_rationalization/All_In_One/script.py:58-72 | `compare_all_pdfs` fails when no block has a token (the vectoriser raises), and otherwise equals the all-vs-all grouping |
| AllInOne.SameDocumentMatched | 06_rationalization/All_In_One/script.py:66-70 | two blocks of the same document, the first before the second and above the threshold, are matched like any other pair: the first block's key lists its own document |
| AllInOne.ShareBounds | 06_rationalization/All_In_One/script.py:168 | the share of matches is non-negative; it is at most 1 when matches do not exceed blocks, and exactly 1 when they are equal |
| AllInOne.EffortReduction | 06_rationalization/All_In_One/script.py:164-168 | 0 for no blocks; otherwise matches/blocks × 100 rounded to two decimals (in hundredths), non-negative, at most 100 % when matches do not exceed blocks |
| AllInOne.EffortMonotone | 06_rationalization/All_In_One/script.py:164-168 | more matches never lower the effort estimate |
| AllInOne.EffortOfPairs | 06_rationalization/All_In_One/script.py:164-168 | n(n - 1)/2 matches over n blocks give (n - 1) × 50 % |
| AllInOne.EffortExceedsHundred | 06_rationalization/All_In_One/script.py:164-168 | the estimate is not bounded by 100 %: four or more mutually similar blocks give more |
| AllInOne.PagesLeftAntitone | 06_rationalization/All_In_One/script.py:174-175 | a larger matched share leaves fewer pages |
| AllInOne.PageReduction | 06_rationalization/All_In_One/script.py:171-176 | the pages unchanged for no blocks; otherwise at least 1, at most max(1, pages), the rounded unmatched share of the pages whenever above 1, and all pages when nothing matched |
| AllInOne.PageReductionAntitone | 06_rationalization/All_In_One/script.py:171-176 | more matches never raise the page estimate |
| AllInOne.PageReductionFloor | 06_rationalization/All_In_One/script.py:171-176 | once matches reach the block count the estimate is one page |
| AllInOne.PagesAreBlocks | 06_rationalization/All_In_One/script.py:197-220 | the driver passes the block count as the page count, so the estimate is max(1, blocks - matches) |
| AllInOne.AnalyzeAllVsAll | 06_rationalization/All_In_One/script.py:179-228 | the driver stops if and only if no valid PDF is listed; given valid PDFs, it fails if and only if no block has a token (the vectoriser raises), and otherwise it reports the grouping, its rows (green/yellow), the block and page totals (equal), and both estimates |
| OneVsMany.CompareOneVsMany | 06_rationalization/1vsN/script.py:61-75 | the one-vs-many comparison fails when no combined block has a token, and otherwise equals the reference-by-corpus grouping |
| OneVsMany.CombinedAt | 06_rationalization/1vsN/script.py:63-64 | the combined lists hold the reference blocks named "Single PDF", then the corpus blocks with their documents' names |
| OneVsMany.ReferenceMatchSource | 06_rationalization/1vsN/script.py:69-73 | each recorded match comes from a reference block and a corpus block with similarity above 0.1 |
| OneVsMany.ReferenceMatchRecorded | 06_rationalization/1vsN/script.py:69-73 | each such pair is recorded under the reference block |
| OneVsMany.KeysFromReferenceDocsFromCorpus | 06_rationalization/1vsN/script.py:69-73 | every key is a reference block's text and every match names a corpus document |
| OneVsMany.AnalyzeSingleVsAll | 06_rationalization/1vsN/script.py:167-215 | the guards in order (no single PDF, invalid reference, no valid corpus file, failed reference analysis), then a failure if the vectoriser raises, and otherwise the grouping, its green/yellow rows and the processed count |
| OneVsManyLoop.CombineBlocks | 06_rationalization/script.py:71-81 | the `extend` loop builds exactly the combined block and name lists, of equal length |
| OneVsManyLoop.CompareBuilt | 06_rationalization/script.py:66-94 | the loop-built comparison equals the one-vs-many grouping, or fails when the vectoriser raises |
| OneVsManyLoop.AnalyzeSingleVsAllSkippingPages | 06_rationalization/script.py:168-211 | the same guards, with documents analysed by skipping failed pages, and rows without a fill |
| OneVsManyLoop.SkippingNeverFails | 06_rationalization/script.py:39-58 | skipping pages, a valid document always yields the blocks of its loaded pages |
| OneVsManyLoop.LaterPagesStillCount | 06_rationalization/script.py:39-44 | after a page that fails to load, a later page's block is still collected; the aborting variant yields None |
| StructureInversion.Place | 05_padfrationalizationpdfparalle.py:50-55 | each kept block lands in exactly one of headers (top < 100), footers (otherwise, top > height - 100) or text blocks; the header test wins |
| StructureInversion.AddBlockElements | 05_padfrationalizationpdfparalle.py:38-55 | a block adds to a non-table kind exactly the element it yields there: an image entry for an image block, or its normalised text when its stripped raw text has at least 100 characters |
| StructureInversion.BlocksElements | 05_padfrationalizationpdfparalle.py:38-55 | the blocks of a page add exactly what each block adds |
| StructureInversion.PagesElementSource | padfrationalizationpdfparalle.py:29-55 | every header, footer, text block and image of a report was added by a block of some loaded page |
| StructureInversion.PagesElementRecorded | 05_padfrationalizationpdfparalle.py:29-55 | what a block of a loaded page adds stays in the report (sets: a repeated element is kept once) |
| StructureInversion.PagesKeep | 05_padfrationalizationpdfparalle.py:29-60 | later pages never remove an element |
| StructureInversion.PageKeeps | 05_padfrationalizationpdfparalle.py:36-60 | one page never removes an element |
| StructureInversion.PageRecords | 05_padfrationalizationpdfparalle.py:36-55 | what a block adds lands in the report after its page |
| StructureInversion.PageElements | padfrationalizationpdfparalle.py:36-60 | a page adds to a non-table kind exactly what its blocks add |
| StructureInversion.BlocksKeepTables | 05_padfrationalizationpdfparalle.py:38-55 | the block loop leaves the tables alone and only adds text blocks |
| StructureInversion.TablesFollowTextBlocks | 05_padfrationalizationpdfparalle.py:57-60 | after every page the tables are exactly the text blocks so far that look like tables |
| StructureInversion.TablesAreMarkedTextBlocks | padfrationalizationpdfparalle.py:57-60 | in a report, an element is a table if and only if it is a text block that mentions "table" or has more than five line breaks |
| StructureInversion.MarkTables | 05_padfrationalizationpdfparalle.py:57-60 | the table loop adds every text block that looks like a table |
| StructureInversion.AnalyzeStructure | 05_padfrationalizationpdfparalle.py:14-67 | `analyze_pdf` gives None for an unopenable or encrypted file and otherwise the report of its pages, skipping pages that fail to load |
| StructureInversion.HoldersStep | 05_padfrationalizationpdfparalle.py:79-82 | one more document joins the holders of exactly the elements it holds |
| StructureInversion.AddAllGet | 05_padfrationalizationpdfparalle.py:81-82 | each element of a set gets the document added to its documents; other elements keep theirs |
| StructureInversion.AddAllAnyFirst | 05_padfrationalizationpdfparalle.py:81-82 | the order in which a set's elements are taken does not matter |
| StructureInversion.AddHolder | 05_padfrationalizationpdfparalle.py:81-82 | the innermost loop adds the document to every element of one set |
| StructureInversion.InvertsStep | 05_padfrationalizationpdfparalle.py:79-82 | adding a document's elements keeps the inversion invariant over one more document |
| StructureInversion.AddDocument | 05_padfrationalizationpdfparalle.py:80-82 | the kind loop keeps the inversion invariant for all five kinds |
| StructureInversion.NoElementsInvertNothing | 05_padfrationalizationpdfparalle.py:71-77 | the empty dictionaries invert no document |
| StructureInversion.CompareStructures | 05_padfrationalizationpdfparalle.py:70-84 | `compare_pdf_structures` inverts the reports: each kind maps every held element, and no other, to the set of documents holding it |
| StructureInversion.InvertsOverAll | 05_padfrationalizationpdfparalle.py:79-84 | the inversion over all documents is the result |
| StructureInversion.InversionHolds | padfrationalizationpdfparalle.py:70-84 | p is recorded under element e of kind t if and only if p's report holds e under t |
| StructureInversion.InversionUnique | 05_padfrationalizationpdfparalle.py:70-84 | the inversion is determined by the reports: two inversions of the same reports are equal |
| StructureInversion.SharedLinesMember | 05_padfrationalizationpdfparalle.py:133-136 | a line is listed if and only if its element is held by more than one document; it carries the first 200 characters and the documents |
| StructureInversion.ReportedIffShared | padfrationalizationpdfparalle.py:105-113 | on the inversion of a corpus, an element is reported if and only if more than one document holds it |
| StructureInversion.NoneFoundOnlyWhenEmpty | 05_padfrationalizationpdfparalle.py:105-113 | a section says "No common … found" if and only if its kind has no element at all; otherwise it lists the shared lines |
| StructureInversion.UnsharedListsNothing | 05_padfrationalizationpdfparalle.py:107-112 | a kind whose only element is held by one document lists nothing and prints no "No common" message |
| StructureInversion.HtmlSections | 05_padfrationalizationpdfparalle.py:115-119 | the HTML report has the five sections in kind order |
| StructureInversion.ExcelRows | 05_padfrationalizationpdfparalle.py:133-136 | the Excel rows are, kind by kind, the shared lines under the kind's key |
| StructureInversion.ExcelMatchesHtml | padfrationalizationpdfparalle.py:133-136 | the Excel report lists the lines of each HTML section that lists any, and nothing for a section that found nothing |
| StructureInversion.StructuresMember | 05_padfrationalizationpdfparalle.py:161-171 | with distinct names, a document has a report if and only if it is a listed file whose analysis gives that report |
| StructureInversion.CollectStructures | 05_padfrationalizationpdfparalle.py:163-171 | the corpus loop stores each report under its file name |
| StructureInversion.AnalyzeSingleVsAllStructure | 05_padfrationalizationpdfparalle.py:146-180 | each guard stops the run if and only if its condition holds and the earlier guards pass (empty single folder, no corpus PDF, failed single analysis); past them the run always reports: the corpus reports, without the single PDF's, are inverted and both reports are built from the inversion |
| Html.FindSpec | 07_html_excel_rule_extraction/extract_rules.py:51 | `find` gives the first matching descendant, and nothing only when no descendant matches |
| Html.FindPreviousSpec | script.py:46 | `find_previous` gives the nearest earlier element with that tag, and nothing only when no earlier element has it |
| Html.FindAllToSound | 07_html_excel_rule_extraction/extract_rules.py:50 | `find_all` lists only matching elements |
| Html.FindAllToOrdered | 07_html_excel_rule_extraction/extract_rules.py:50 | `find_all` lists them in document order |
| Html.FindAllToComplete | 07_html_excel_rule_extraction/extract_rules.py:50 | `find_all` misses no matching element |
| Html.StripClean | script.py:48-49 | a stripped text is empty or neither starts nor ends with whitespace |
| Html.StrippedToClean | 07_html_excel_rule_extraction/script.py:56 | every string `get_text(strip=True)` keeps is non-empty and trimmed |
| Html.JoinToClean | 07_html_excel_rule_extraction/script.py:58 | joining trimmed strings with any separator gives a trimmed string |
| Html.StrippedTextIsStripped | 07_html_excel_rule_extraction/script.py:58 | `get_text(sep, strip=True)` is empty or neither starts nor ends with whitespace |
| Html.HtmExcludesHtml | script.py:89 | the ".htm" filter takes no ".html" file; a name passes the ".html"/".htm" filter if and only if it ends in ".htm" or ".html" |
| Patterns.TaggedNumberNone | 07_html_excel_rule_extraction/code/extract_rules.py:43-44 | the `#Rule(\d+)` search fails if and only if the tag followed by a digit occurs nowhere |
| Patterns.TaggedNumberLeftmost | 07_html_excel_rule_extraction/code/extract_rules.py:43-48 | a match is at the leftmost occurrence, and the id is the whole, non-empty digit run after the tag |
| Patterns.CodeSpaceRestRoundTrip | 07_html_excel_rule_extraction/extract_rules.py:22-27 | "R" + digits + whitespace + rest (as far as the first newline) parses back to ("R" + digits, rest) |
| Patterns.CodeSpaceRestSplits | 07_html_excel_rule_extraction/extract_rules.py:22-27 | whatever `^(R\d+)\s+(.*)` matches splits into exactly such parts |
| Patterns.CodeRestRoundTrip | 07_html_excel_rule_extraction/script.py:61-62 | "R" or "F", digits, optional whitespace and a title parse back to the code and the title |
| Patterns.CodeRestSplits | 07_html_excel_rule_extraction/script.py:61-62 | whatever `(R\d+\|F\d+)\s*(.*)` matches splits into exactly such parts |
| SheetLayout.LongestToSpec | 07_html_excel_rule_extraction/extract_rules.py:68 | the longest cell bounds every cell of the column, and some cell is that long |
| SheetLayout.FitWidthSpec | 07_html_excel_rule_extraction/extract_rules.py:65-70 | a fitted width is at most 50; it is 50, or exactly two more than the longest cell and so at least two more than every cell |
| SheetLayout.LongestCell | 07_html_excel_rule_extraction/extract_rules.py:68 | the column loop finds the longest cell of the column |
| SheetLayout.AutoFitColumns | 07_html_excel_rule_extraction/extract_functions.py:37-42 | one width per column, each `min(longest + 2, 50)` |
| SectionedRules.ClassifyCategoryLabel | 07_html_excel_rule_extraction/code/extract_rules.py:30-38 | the category is one of the six pattern labels or "Page Design" |
| SectionedRules.ClassifyCategoryDefault | 07_html_excel_rule_extraction/code/extract_rules.py:30-38 | "Page Design" if and only if no pattern occurs in the name, in any case |
| SectionedRules.ClassifyCategoryQueue | 07_html_excel_rule_extraction/code/extract_rules.py:34-36 | a name that mentions "queue" in any case is "Queue", whatever else it mentions |
| SectionedRules.RuleRowShape | 07_html_excel_rule_extraction/code/extract_rules.py:41-48 | a rule row is [id, name, formula, category]: the leftmost tag's whole digit run, the block's name and formula, and the category of the name, one of the seven labels |
| SectionedRules.FunctionRowShape | 07_html_excel_rule_extraction/code/extract_rules.py:52-58 | a function row is [id, name, formula], with the leftmost `#Function` tag's whole digit run as its id |
| SectionedRules.ItemNameField | 07_html_excel_rule_extraction/code/extract_rules.py:45 | the item name is the stripped text of the block's first `<strong>`, or "Unknown" when it has none |
| SectionedRules.FormulaField | 07_html_excel_rule_extraction/code/extract_rules.py:62-65 | the formula is the text of the block's first `<pre>` untouched, or "No formula found" when it has none |
| SectionedRules.RouteStep | 07_html_excel_rule_extraction/code/extract_rules.py:79-89 | a block adds its rule row when its section mentions "rules list", and otherwise its function row when it mentions "function list"; never both |
| SectionedRules.RouteBlock | 07_html_excel_rule_extraction/code/extract_rules.py:77-89 | the loop body computes exactly the block's rule and function rows |
| SectionedRules.RulesTakePriority | 07_html_excel_rule_extraction/code/extract_rules.py:81-89 | a block under a heading with both phrases gives no function row, and gives its rule row when it carries a rule tag |
| SectionedRules.RowsOfPage | 07_html_excel_rule_extraction/code/extract_rules.py:74-91 | the block loop gives exactly the page's rule rows and function rows |
| SectionedRules.PageRulesFrom | 07_html_excel_rule_extraction/code/extract_rules.py:77-84 | a row is in the rules if and only if some `<div align="left">` block under a "rules list" section gives it |
| SectionedRules.PageFunctionsFrom | 07_html_excel_rule_extraction/code/extract_rules.py:77-89 | a row is in the functions if and only if some block under a "function list" section, and not a "rules list" one, gives it |
| SectionedRules.ProcessHtmlFile | 07_html_excel_rule_extraction/code/extract_rules.py:68-95 | a file that cannot be opened gives `([], [])`; otherwise the page's rows |
| SectionedRules.FilesStep | 07_html_excel_rule_extraction/code/extract_rules.py:131-140 | one more file extends both lists by that file's rows |
| SectionedRules.ExtractReport | 07_html_excel_rule_extraction/code/extract_rules.py:122-146 | nothing without the input folder; otherwise the files' rows in listing order, and a report if and only if there is a rule or a function |
| RuleSheet.CategorizeRuleLabel | 07_html_excel_rule_extraction/extract_rules.py:29-41 | the category is one of the five labels or "Uncategorized" |
| RuleSheet.CategorizeRuleDefault | 07_html_excel_rule_extraction/extract_rules.py:38-41 | "Uncategorized" if and only if none of the five keywords occurs, case-sensitively |
| RuleSheet.PageDesignNeedsDesignOnly | 07_html_excel_rule_extraction/extract_rules.py:31-40 | "Page Design" if and only if the name mentions "Design" and none of "Queue", "Page", "Component", "Document" |
| RuleSheet.RuleOfBlock | 07_html_excel_rule_extraction/extract_rules.py:51-61 | the loop body computes the block's contribution: nothing without an "R" heading, a raise when the formula `<div>` is missing, else one row |
| RuleSheet.BlockRuleSingle | 07_html_excel_rule_extraction/extract_rules.py:51-61 | a block adds at most one row |
| RuleSheet.RulesOfPage | 07_html_excel_rule_extraction/extract_rules.py:49-63 | the block loop gives the page's rows, or raises |
| RuleSheet.ExtractRulesFromHtml | 07_html_excel_rule_extraction/extract_rules.py:43-63 | a file that cannot be opened raises; otherwise the rows of the page read with undecodable bytes replaced |
| RuleSheet.PageRulesRaise | 07_html_excel_rule_extraction/extract_rules.py:50-55 | a page raises if and only if a rule block has a parsing "R" heading and no formula `<div>` |
| RuleSheet.PageRowSource | 07_html_excel_rule_extraction/extract_rules.py:50-61 | every row of a page comes from one of its rule blocks |
| RuleSheet.PageRowRecorded | 07_html_excel_rule_extraction/extract_rules.py:50-61 | every rule block's row is on the page |
| RuleSheet.PageRulesFrom | 07_html_excel_rule_extraction/extract_rules.py:50-61 | a page's rows are exactly its rule blocks' rows |
| RuleSheet.RowShape | 07_html_excel_rule_extraction/extract_rules.py:52-60 | a row's id is "R" and digits (so no "F" heading gives a row); its name has no newline and does not start with whitespace; its formula is stripped; its category is the name's |
| RuleSheet.HeadingGivesRow | 07_html_excel_rule_extraction/extract_rules.py:51-61 | a heading "R" + digits + whitespace + name, with a formula, gives exactly (that id, that name, the stripped formula, the name's category) |
| RuleSheet.AllRulesRaise | 07_html_excel_rule_extraction/extract_rules.py:101-107 | the run raises if and only if a ".html"/".htm" file cannot be opened or its page raises |
| RuleSheet.AllRulesFrom | 07_html_excel_rule_extraction/extract_rules.py:101-107 | otherwise the rows are those of the ".html"/".htm" files' pages |
| RuleSheet.ProcessFile | 07_html_excel_rule_extraction/extract_rules.py:103-107 | one file adds nothing unless its name ends in ".html" or ".htm" |
| RuleSheet.CollectRules | 07_html_excel_rule_extraction/extract_rules.py:97-109 | the walk collects all files' rows in order, or raises |
| RuleSheet.SheetOf | 07_html_excel_rule_extraction/extract_rules.py:78-84 | the header row, then one row per rule in order |
| RuleSheet.SheetColumns | 07_html_excel_rule_extraction/extract_rules.py:79-84 | the sheet has four columns |
| RuleSheet.ProcessRules | 07_html_excel_rule_extraction/extract_rules.py:95-114 | raises exactly when a file does; otherwise writes the sheet, with fitted widths, if and only if a rule was found |
| FormulaScan.FormulaOfPre | script.py:44-52 | the loop body gives the `<pre>`'s row, or nothing |
| FormulaScan.FormulasOfPage | script.py:40-52 | the `<pre>` loop gives the page's rows in document order |
| FormulaScan.ExtractDataFromHtm | script.py:19-56 | a file that cannot be opened gives no row (the error is caught); otherwise the page's rows, the fallback read dropping undecodable bytes |
| FormulaScan.PageFormulaSource | script.py:40-50 | every row comes from a `<pre>` mentioning "Formula:" and is (stripped nearest earlier `<a>` text, stripped `<pre>` text, path) |
| FormulaScan.PageFormulaRecorded | script.py:40-50 | every `<pre>` mentioning "Formula:" with an earlier `<a>` gives that row |
| FormulaScan.UntitledFormulaDropped | script.py:46-52 | a qualifying `<pre>` gives no row if and only if no `<a>` comes before it |
| FormulaScan.RowShape | script.py:44-50 | a row's formula still mentions "Formula:" and is trimmed; its title is trimmed or empty; its path is the file's |
| FormulaScan.AllFormulasFrom | script.py:87-92 | every row comes from a readable ".htm" file and names that file's path |
| FormulaScan.HtmlFilesIgnored | script.py:89 | a ".html" file gives no row |
| FormulaScan.SheetOf | script.py:64-69 | the header row, then one row per formula in order |
| FormulaScan.ProcessFile | script.py:89-92 | one file adds nothing unless its name ends in ".htm" |
| FormulaScan.CollectFormulas | script.py:86-92 | the walk concatenates the files' rows in walk order |
| FormulaScan.ProcessHtmReports | script.py:85-97 | the sheet is written, every column 50 wide, if and only if a formula was found |
| RuleFormula.CategorizeRuleLabel | 07_html_excel_rule_extraction/script.py:36-41 | the category is one of the five labels or "Unknown" |
| RuleFormula.CategorizeRuleDefault | 07_html_excel_rule_extraction/script.py:36-41 | "Unknown" if and only if none of the keywords occurs, in any case |
| RuleFormula.CategoryIgnoresCase | 07_html_excel_rule_extraction/script.py:39 | a name and its lowered form get the same category |
| RuleFormula.EntryOfBlock | 07_html_excel_rule_extraction/script.py:52-65 | the loop body gives the block's row when it has both an `<h3>` and a formula `<div>`, and nothing otherwise |
| RuleFormula.ExtractRuleAndFormula | 07_html_excel_rule_extraction/script.py:44-67 | the block loop gives the page's rows in document order |
| RuleFormula.EntrySource | 07_html_excel_rule_extraction/script.py:49-65 | every row comes from a rule block with both a heading and a formula |
| RuleFormula.EntryRecorded | 07_html_excel_rule_extraction/script.py:49-65 | every such block gives its row |
| RuleFormula.SplitHeadingRoundTrip | 07_html_excel_rule_extraction/script.py:61-62 | a heading "R"/"F" + digits + optional whitespace + title splits into exactly that id and title |
| RuleFormula.SplitHeadingUnknown | 07_html_excel_rule_extraction/script.py:61-62 | a heading starting with neither code gives ("UNKNOWN", the whole heading) |
| RuleFormula.EntryShape | 07_html_excel_rule_extraction/script.py:56-65 | a row's id is "UNKNOWN" or a code that starts the heading; its formula is trimmed; its category comes from the whole heading |
| RuleFormula.SheetOf | 07_html_excel_rule_extraction/script.py:78-82 | the header row, then [id, title, formula, category] per row |
| RuleFormula.ProcessHtmlFile | 07_html_excel_rule_extraction/script.py:98-113 | run fails if and only if the file cannot be opened; otherwise the sheet, columns 50 wide, is written if and only if there is a row |
| FunctionSheet.FunctionOfBlock | 07_html_excel_rule_extraction/extract_functions.py:31-34 | the loop body: a raise without `<h3>`, nothing unless the unstripped heading starts with "F", a raise without a formula, else one row |
| FunctionSheet.ExtractFunctions | 07_html_excel_rule_extraction/extract_functions.py:26-35 | the block loop gives the page's rows, or raises |
| FunctionSheet.PageFunctionsRaise | 07_html_excel_rule_extraction/extract_functions.py:29-33 | a page raises if and only if a rule block has no `<h3>`, or an "F" heading and no formula `<div>` |
| FunctionSheet.BlockFunctionSingle | 07_html_excel_rule_extraction/extract_functions.py:30-34 | a block adds at most one row |
| FunctionSheet.FunctionSource | 07_html_excel_rule_extraction/extract_functions.py:29-35 | every row comes from one of the page's rule blocks |
| FunctionSheet.FunctionRecorded | 07_html_excel_rule_extraction/extract_functions.py:29-35 | every rule block's row is on the page |
| FunctionSheet.FunctionShape | 07_html_excel_rule_extraction/extract_functions.py:22-33 | a row's block has an "F" heading; its name is the stripped heading; its formula is the text joined by newlines and not stripped |
| FunctionSheet.ProcessFile | 07_html_excel_rule_extraction/extract_functions.py:70-82 | an unopenable file ends the run, since encoding detection is outside the `try`; an undecodable file or a raising page adds nothing |
| FunctionSheet.CollectFunctions | 07_html_excel_rule_extraction/extract_functions.py:64-82 | the file loop collects the files' rows in listing order, or ends early |
| FunctionSheet.AllFunctionsRaise | 07_html_excel_rule_extraction/extract_functions.py:69-82 | the run ends early if and only if a ".html"/".htm" file cannot be opened |
| FunctionSheet.AllFunctionsFrom | 07_html_excel_rule_extraction/extract_functions.py:66-82 | otherwise the rows are those of the parsed files whose pages do not raise |
| FunctionSheet.SheetOf | 07_html_excel_rule_extraction/extract_functions.py:50-56 | the header row, then one [name, formula] row per function |
| FunctionSheet.SheetColumns | 07_html_excel_rule_extraction/extract_functions.py:50-56 | the sheet has two columns |
| FunctionSheet.ProcessHtmlFiles | 07_html_excel_rule_extraction/extract_functions.py:62-87 | ends early exactly when a file cannot be opened; otherwise writes, with fitted widths, if and only if a function was found |

## Left out

- Parsing itself (PyMuPDF block extraction, BeautifulSoup) is not modelled: a PDF is an abstract
  list of pages of blocks, and an HTML page an abstract list of elements with their text, strings
  and markup.
- TF-IDF vectorisation and cosine similarity: the similarity matrix is a function parameter.
  `MatchGroups.HasVocabulary` decides whether the vectoriser raises. It holds when some block has
  two word characters in a row, which is where the default token pattern `\b\w\w+\b` finds a
  token. Word characters are ASCII only, as the Characters line below says.
- Floating point: coordinates, heights and similarities are reals. The score
  `round(similarity * 100, 2)` is an integer count of hundredths of a percent, rounded half to even.
- The printed form of a score (`f"{similarity}%"`, the float in a cell) and of a bounding box
  (`bboxText`) is not modelled. `MatchGroups.RowHighlight` keeps the score as a number in every
  row; only the fill depends on the script.
- Concurrency: `ProcessPoolExecutor` completion order is taken to be the listing order.
- The `except` around the future results is not modelled, since `analyze_pdf` catches everything.
- Rendering and output are not modelled: HTML templating, timestamps, file names, fonts and
  alignment, `set_column('A:D', 30)`, creation of the output folder, workbook saving and its
  errors, logs, and progress messages. Only the cell contents and column widths are modelled.
- File discovery: `os.listdir`/`os.walk` become a list of entries in listing order.
- `StructureInversion.StructuresMember`: holds only for distinct file names. The corpus
  dictionary keeps the last report under a repeated basename.
- Encoding detection (chardet) is not modelled. A file is unopenable, undecodable with a
  lenient reading, or parsed (`Html.Source`). The different lenient readings (ISO-8859-1, `errors='replace'`, `errors='ignore'`, the UTF-8
  fallback) are one abstract lenient document.
- A detected encoding of None is not modelled.
- Exceptions inside `get_text` are not modelled. The modelled raises are:
  - the `None` attribute errors the HTML scripts can reach;
  - a file that cannot be opened, which ends the run in `RuleSheet` and `FunctionSheet`;
  - the vectoriser's `ValueError` on blocks without a token (`VectorizerRaised`);
  - the `IndexError` on an empty single folder in `05_padfrationalizationpdfparalle.py` (`SingleFolderEmpty`);
  - a page-load failure that aborts the document inside `analyze_pdf`'s `try` (`AbortDocument`).
- Characters: `lower()`, `\w`, `\d` and `(?i)` are modelled for ASCII letters and digits only.
  The whitespace set is the one `str.isspace()` uses.
- `05_padfrationalizationpdfparalle.py`: the iteration order of a Python set is not modelled. The
  element → documents map, the shared lines and the joined document names are sets.
- `str(block)` in `07_html_excel_rule_extraction/code/extract_rules.py` is the element's `markup` field, taken as given.
