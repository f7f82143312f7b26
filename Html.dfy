/**
 * An HTML page as BeautifulSoup presents it to the rule-extraction scripts: its elements in
 * document order, each one before its descendants and its descendants right after it. An
 * element records its tag name, its classes, its `align` attribute, the text strings inside it
 * (its own and its descendants', in order), its markup as `str(element)` renders it, and the
 * position just past its last descendant.
 */
module Html {
  import opened Options
  import opened Strings

  datatype Element = Element(tag: string, classes: set<string>, align: Option<string>,
                             strings: seq<string>, markup: string, end: nat)

  /** The descendants of element i are the elements at positions i + 1 up to its end. */
  predicate WellFormed(doc: seq<Element>) {
    forall i :: 0 <= i < |doc| ==> i < doc[i].end <= |doc|
  }

  type Document = doc: seq<Element> | WellFormed(doc)

  /** The arguments of `find`, `find_all` and `find_previous`: a tag name, and a class or an `align` value when given. */
  datatype Query = Query(tag: string, cls: Option<string>, align: Option<string>)

  function Tag(tag: string): Query {
    Query(tag, None, None)
  }

  /** The rule blocks, `find_all('div', class_='rule')`, of the pages that list rules and functions by `<div class="rule">`. */
  const RuleQuery := Query("div", Some("rule"), None)

  /** A block's formula, `find('div', class_='formula')`. */
  const FormulaQuery := Query("div", Some("formula"), None)

  predicate Matches(e: Element, q: Query) {
    e.tag == q.tag && (q.cls.Some? ==> q.cls.value in e.classes) && (q.align.Some? ==> e.align == q.align)
  }

  /** The first matching element among positions j up to stop. */
  function FirstFrom(doc: Document, q: Query, j: nat, stop: nat): (r: Option<nat>)
    requires j <= stop <= |doc|
    ensures r.Some? ==> j <= r.value < stop && Matches(doc[r.value], q)
    decreases stop - j
  {
    if j == stop then None else if Matches(doc[j], q) then Some(j) else FirstFrom(doc, q, j + 1, stop)
  }

  lemma {:induction false} FirstFromSkips(doc: Document, q: Query, j: nat, stop: nat, k: nat)
    requires j <= k < stop <= |doc|
    requires FirstFrom(doc, q, j, stop).None? || k < FirstFrom(doc, q, j, stop).value
    ensures !Matches(doc[k], q)
    decreases stop - j
  {
    if k > j {
      FirstFromSkips(doc, q, j + 1, stop, k);
    }
  }

  /** `element.find(...)`: the first descendant of element i, in document order, that matches. */
  function Find(doc: Document, i: nat, q: Query): Option<nat>
    requires i < |doc|
  {
    FirstFrom(doc, q, i + 1, doc[i].end)
  }

  /** `find` gives a matching descendant with no matching descendant before it, and gives nothing only when none matches. */
  lemma FindSpec(doc: Document, i: nat, q: Query)
    requires i < |doc|
    ensures var r := Find(doc, i, q);
            && (r.Some? ==> i < r.value < doc[i].end && Matches(doc[r.value], q)
                            && forall k :: i < k < r.value ==> !Matches(doc[k], q))
            && (r.None? ==> forall k :: i < k < doc[i].end ==> !Matches(doc[k], q))
  {
    forall k | i < k < doc[i].end && (Find(doc, i, q).None? || k < Find(doc, i, q).value)
      ensures !Matches(doc[k], q)
    {
      FirstFromSkips(doc, q, i + 1, doc[i].end, k);
    }
  }

  /** The last matching element before position i. */
  function LastBefore(doc: Document, q: Query, i: nat): (r: Option<nat>)
    requires i <= |doc|
    ensures r.Some? ==> r.value < i && Matches(doc[r.value], q)
  {
    if i == 0 then None else if Matches(doc[i - 1], q) then Some(i - 1) else LastBefore(doc, q, i - 1)
  }

  /** `element.find_previous(tag)`: the nearest element before element i, in document order, with that tag. */
  function FindPrevious(doc: Document, i: nat, tag: string): Option<nat>
    requires i < |doc|
  {
    LastBefore(doc, Tag(tag), i)
  }

  lemma {:induction false} LastBeforeSkips(doc: Document, q: Query, i: nat, k: nat)
    requires k < i <= |doc|
    requires LastBefore(doc, q, i).None? || LastBefore(doc, q, i).value < k
    ensures !Matches(doc[k], q)
  {
    if k < i - 1 {
      LastBeforeSkips(doc, q, i - 1, k);
    }
  }

  /** `find_previous` gives the nearest element before with that tag, and gives nothing only when no element before has it. */
  lemma FindPreviousSpec(doc: Document, i: nat, tag: string)
    requires i < |doc|
    ensures var r := FindPrevious(doc, i, tag);
            && (r.Some? ==> r.value < i && doc[r.value].tag == tag && forall k :: r.value < k < i ==> doc[k].tag != tag)
            && (r.None? ==> forall k :: 0 <= k < i ==> doc[k].tag != tag)
  {
    forall k | 0 <= k < i && (FindPrevious(doc, i, tag).None? || FindPrevious(doc, i, tag).value < k)
      ensures doc[k].tag != tag
    {
      LastBeforeSkips(doc, Tag(tag), i, k);
    }
  }

  /** `find_all(...)` over the first n elements: the positions that match, in document order. */
  function FindAllTo(doc: Document, q: Query, n: nat): seq<nat>
    requires n <= |doc|
  {
    if n == 0 then [] else FindAllTo(doc, q, n - 1) + (if Matches(doc[n - 1], q) then [n - 1] else [])
  }

  function FindAll(doc: Document, q: Query): seq<nat> {
    FindAllTo(doc, q, |doc|)
  }

  /** Every position `find_all` lists is one of a matching element before n. */
  lemma {:induction false} FindAllToSound(doc: Document, q: Query, n: nat)
    requires n <= |doc|
    ensures forall k :: 0 <= k < |FindAllTo(doc, q, n)| ==> FindAllTo(doc, q, n)[k] < n && Matches(doc[FindAllTo(doc, q, n)[k]], q)
  {
    if n > 0 {
      FindAllToSound(doc, q, n - 1);
    }
  }

  /** `find_all` lists positions in increasing, that is document, order. */
  lemma {:induction false} FindAllToOrdered(doc: Document, q: Query, n: nat)
    requires n <= |doc|
    ensures forall k, l :: 0 <= k < l < |FindAllTo(doc, q, n)| ==> FindAllTo(doc, q, n)[k] < FindAllTo(doc, q, n)[l]
  {
    if n > 0 {
      FindAllToOrdered(doc, q, n - 1);
      FindAllToSound(doc, q, n - 1);
    }
  }

  /** `find_all` misses no matching element. */
  lemma {:induction false} FindAllToComplete(doc: Document, q: Query, n: nat, i: nat)
    requires i < n <= |doc| && Matches(doc[i], q)
    ensures i in FindAllTo(doc, q, n)
  {
    if i < n - 1 {
      FindAllToComplete(doc, q, n - 1, i);
    }
  }

  /** `element.get_text()` and `element.text`: its strings run together. */
  function Text(e: Element): string {
    Join("", e.strings)
  }

  /** `element.get_text(sep)`: its strings joined by sep. */
  function TextSep(e: Element, sep: string): string {
    Join(sep, e.strings)
  }

  /** The strings `get_text(strip=True)` keeps among the first k: each one stripped, the empty ones dropped. */
  function StrippedTo(strings: seq<string>, k: nat): seq<string>
    requires k <= |strings|
  {
    if k == 0 then []
    else
      var t := Strip(strings[k - 1]);
      StrippedTo(strings, k - 1) + (if |t| == 0 then [] else [t])
  }

  /** `element.get_text(sep, strip=True)`: its stripped, non-empty strings joined by sep. */
  function TextSepStrip(e: Element, sep: string): string {
    Join(sep, StrippedTo(e.strings, |e.strings|))
  }

  /** `element.get_text(strip=True)` */
  function TextStrip(e: Element): string {
    TextSepStrip(e, "")
  }

  /** t is non-empty and neither starts nor ends with whitespace. */
  predicate Clean(t: string) {
    |t| > 0 && !IsSpace(t[0]) && !IsSpace(t[|t| - 1])
  }

  lemma StripClean(s: string)
    ensures |Strip(s)| == 0 || Clean(Strip(s))
  {
    StripSpec(s);
  }

  /** Every string `get_text(strip=True)` keeps is non-empty and neither starts nor ends with whitespace. */
  lemma {:induction false} StrippedToClean(strings: seq<string>, k: nat)
    requires k <= |strings|
    ensures forall m :: 0 <= m < |StrippedTo(strings, k)| ==> Clean(StrippedTo(strings, k)[m])
  {
    if k > 0 {
      StrippedToClean(strings, k - 1);
      var t := Strip(strings[k - 1]);
      if |t| > 0 {
        StripClean(strings[k - 1]);
        assert StrippedTo(strings, k) == StrippedTo(strings, k - 1) + [t];
      }
    }
  }

  /** Joining clean parts, whatever the separator, gives a clean string: it starts and ends where the parts do. */
  lemma {:induction false} JoinToClean(sep: string, parts: seq<string>, k: nat)
    requires 0 < k <= |parts| && forall m :: 0 <= m < k ==> Clean(parts[m])
    ensures Clean(JoinTo(sep, parts, k))
  {
    if k > 1 {
      JoinToClean(sep, parts, k - 1);
      var a := JoinTo(sep, parts, k - 1);
      assert Clean(parts[k - 1]);
      assert JoinTo(sep, parts, k) == a + sep + parts[k - 1];
      assert (a + sep + parts[k - 1])[0] == a[0];
    }
  }

  /** Whatever the separator, `get_text(sep, strip=True)` neither starts nor ends with whitespace. */
  lemma StrippedTextIsStripped(e: Element, sep: string)
    ensures |TextSepStrip(e, sep)| == 0 || Clean(TextSepStrip(e, sep))
  {
    var r := StrippedTo(e.strings, |e.strings|);
    StrippedToClean(e.strings, |e.strings|);
    if |r| > 0 {
      JoinToClean(sep, r, |r|);
    }
  }

  /**
   * What reading a listed file gives: it cannot be opened at all; it opens but some of its
   * bytes do not decode in the encoding the script asks for, and `lenient` is the page read
   * with those bytes replaced or dropped; or it decodes and `doc` is the parsed page.
   */
  datatype Source = Unopenable | Undecodable(lenient: Document) | Parsed(doc: Document)

  /** The page a script sees when it opens with `errors='replace'` or `errors='ignore'`, or falls back to such a reading. */
  function Readable(src: Source): Option<Document> {
    match src
    case Unopenable => None
    case Undecodable(lenient) => Some(lenient)
    case Parsed(doc) => Some(doc)
  }

  /** A listed file: the name the extension filter looks at, the path the script opens, and its contents. */
  datatype FileEntry = FileEntry(name: string, path: string, source: Source)

  /** `name.endswith(('.html', '.htm'))` */
  predicate HtmlName(name: string) {
    EndsWith(name, ".html") || EndsWith(name, ".htm")
  }

  /** `name.endswith(".htm")` */
  predicate HtmName(name: string) {
    EndsWith(name, ".htm")
  }

  /** The ".htm" filter is the narrower one: it takes no ".html" file, and every file it takes the wider filter takes too. */
  lemma HtmExcludesHtml(name: string)
    ensures EndsWith(name, ".html") ==> !HtmName(name)
    ensures HtmName(name) ==> HtmlName(name)
    ensures HtmlName(name) <==> HtmName(name) || EndsWith(name, ".html")
  {
    if EndsWith(name, ".html") {
      assert name[|name| - 5..][4] == name[|name| - 1];
      assert name[|name| - 4..][3] == name[|name| - 1];
    }
  }
}
