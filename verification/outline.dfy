/** Outline-driven section identification (`PDFParser.identify_sections`,
    outline branch, and `_extract_section_content`). */
module Outline {
  import opened Strings
  import opened Seqs
  import opened DataModels

  /** The last page of section `i`: the page before the next entry when that
      entry is at the same or a shallower level, otherwise the last page of the
      document. Only the immediately following entry is consulted. */
  function EndPage(toc: seq<TocEntry>, i: nat, totalPages: int): int
    requires i < |toc|
  {
    if i + 1 < |toc| && toc[i + 1].level <= toc[i].level then toc[i + 1].page - 1
    else totalPages
  }

  predicate InRange(p: Page, start: int, end: int)
  {
    start <= p.number <= end && p.text != ""
  }

  /** The non-empty page texts whose page number lies in `[start, end]`, in page order. */
  function RangeTexts(pages: seq<Page>, start: int, end: int): (r: seq<string>)
    ensures forall k :: 0 <= k < |r| ==> r[k] != ""
  {
    var sel := Filter(pages, (p: Page) => InRange(p, start, end));
    seq(|sel|, k requires 0 <= k < |sel| => sel[k].text)
  }

  /** `_extract_section_content`: the selected page texts joined by newlines. */
  function SectionContent(pages: seq<Page>, start: int, end: int): string
  {
    Join("\n", RangeTexts(pages, start, end))
  }

  /** The content is empty exactly when no page in the range has text; when it
      is not, every contributing page lies in the range, in document order. */
  lemma SectionContentEmptyIff(pages: seq<Page>, start: int, end: int)
    ensures SectionContent(pages, start, end) == "" <==>
            forall k :: 0 <= k < |pages| ==> !(start <= pages[k].number <= end && pages[k].text != "")
  {
    var sel := Filter(pages, (p: Page) => InRange(p, start, end));
    JoinEmptyIff("\n", RangeTexts(pages, start, end));
    if |sel| > 0 {
      assert sel[0] in pages;
    }
  }

  /** Content over the pages `a + b` is the content over `a` followed by `b`. */
  lemma RangeTextsAppend(a: seq<Page>, b: seq<Page>, start: int, end: int)
    ensures RangeTexts(a + b, start, end) == RangeTexts(a, start, end) + RangeTexts(b, start, end)
  {
    FilterAppend(a, b, (p: Page) => InRange(p, start, end));
  }

  /** Indices of the entries that precede `i` at a strictly smaller level. */
  function ParentIndices(toc: seq<TocEntry>, i: nat): seq<nat>
    requires i < |toc|
  {
    Where(i, (j: nat) => j < |toc| && toc[j].level < toc[i].level)
  }

  function ParentTitles(toc: seq<TocEntry>, i: nat): (r: seq<string>)
    requires i < |toc|
  {
    var idx := ParentIndices(toc, i);
    seq(|idx|, k requires 0 <= k < |idx| => toc[idx[k]].title)
  }

  /** The section built for outline entry `i`. */
  function EntrySection(toc: seq<TocEntry>, pages: seq<Page>, totalPages: int, i: nat): Section
    requires i < |toc|
  {
    var end := EndPage(toc, i, totalPages);
    Section(toc[i].title, SectionContent(pages, toc[i].page, end), toc[i].page, end,
            toc[i].level, ParentTitles(toc, i))
  }

  /** Outline entries whose section has content. */
  function EmittedEntries(toc: seq<TocEntry>, pages: seq<Page>, totalPages: int): seq<nat>
  {
    Where(|toc|, (i: nat) => i < |toc| && EntrySection(toc, pages, totalPages, i).content != "")
  }

  /** The outline branch of `identify_sections`: one section per outline entry
      with non-empty content, in outline order. */
  function FromOutline(toc: seq<TocEntry>, pages: seq<Page>, totalPages: int): (r: seq<Section>)
    ensures |r| <= |toc|
    ensures forall k :: 0 <= k < |r| ==> r[k].content != ""
  {
    var idx := EmittedEntries(toc, pages, totalPages);
    seq(|idx|, k requires 0 <= k < |idx| => EntrySection(toc, pages, totalPages, idx[k]))
  }

  /** Each emitted section carries its entry's title, start page and level;
      its end page follows the immediate-successor rule; its parents are, in
      order, the titles of all earlier entries with a strictly smaller level. */
  lemma OutlineSectionShape(toc: seq<TocEntry>, pages: seq<Page>, totalPages: int, k: nat)
    requires k < |FromOutline(toc, pages, totalPages)|
    ensures var s := FromOutline(toc, pages, totalPages)[k];
            var i := EmittedEntries(toc, pages, totalPages)[k];
            var pidx := ParentIndices(toc, i);
            && i < |toc|
            && s.title == toc[i].title && s.pageStart == toc[i].page && s.level == toc[i].level
            && s.pageEnd == (if i + 1 < |toc| && toc[i + 1].level <= toc[i].level
                             then toc[i + 1].page - 1 else totalPages)
            && s.content == SectionContent(pages, toc[i].page, s.pageEnd)
            && s.content != ""
            && |s.parents| == |pidx|
            && (forall m :: 0 <= m < |pidx| ==> pidx[m] < i && toc[pidx[m]].level < toc[i].level
                                                && s.parents[m] == toc[pidx[m]].title)
            && (forall j :: 0 <= j < i && toc[j].level < toc[i].level ==> j in pidx)
  {
  }

  /** An entry is dropped exactly when no page of its range has text. */
  lemma OutlineEntryEmitted(toc: seq<TocEntry>, pages: seq<Page>, totalPages: int, i: nat)
    requires i < |toc|
    ensures i in EmittedEntries(toc, pages, totalPages) <==>
            exists k :: 0 <= k < |pages| && toc[i].page <= pages[k].number <= EndPage(toc, i, totalPages)
                        && pages[k].text != ""
  {
    SectionContentEmptyIff(pages, toc[i].page, EndPage(toc, i, totalPages));
  }

  /** Only the next entry is consulted: a chapter followed by a subsection
      runs to the end of the document even when a later chapter starts earlier. */
  lemma EndPageIgnoresLaterSiblings()
    ensures var toc := [TocEntry("Chapter 1", 1, 1), TocEntry("Combat", 2, 2), TocEntry("Chapter 2", 5, 1)];
            EndPage(toc, 0, 10) == 10 && EndPage(toc, 1, 10) == 4
  {
  }
}
