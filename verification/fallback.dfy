/** Heading-driven fallback sectioning (`PDFParser._identify_sections_from_text`).
    Whether a line is a heading is decided by the predicate `isHeading`
    (the source's four regular expressions). */
module Fallback {
  import opened Wrappers
  import opened Strings
  import opened Seqs
  import opened DataModels

  /** A stripped, non-blank line and the number of the page it came from. */
  datatype Line = Line(page: int, text: string)

  /** A section whose heading has been seen and whose content lines are being collected. */
  datatype Open = Open(heading: Line, body: seq<Line>)

  /** The stripped non-blank lines of one page, in order. */
  function PageLines(p: Page): (r: seq<Line>)
    ensures forall k :: 0 <= k < |r| ==> r[k].page == p.number && r[k].text != ""
  {
    var parts := Split(p.text, "\n");
    var kept := Filter(parts, (l: string) => Strip(l) != "");
    seq(|kept|, k requires 0 <= k < |kept| => Line(p.number, Strip(kept[k])))
  }

  /** Every line of the document, page after page. */
  function DocumentLines(pages: seq<Page>): (r: seq<Line>)
    ensures forall k :: 0 <= k < |r| ==> r[k].text != ""
  {
    if |pages| == 0 then [] else PageLines(pages[0]) + DocumentLines(pages[1..])
  }

  function Texts(ls: seq<Line>): (r: seq<string>)
    ensures |r| == |ls|
    ensures forall k :: 0 <= k < |ls| ==> r[k] == ls[k].text
  {
    seq(|ls|, k requires 0 <= k < |ls| => ls[k].text)
  }

  /** The section a heading and its (non-empty) content lines make. */
  function MakeSection(heading: Line, body: seq<Line>): Section
    requires |body| > 0
  {
    Section(heading.text, Join("\n", Texts(body)), heading.page, body[|body| - 1].page, 1, [])
  }

  /** Saving the open section: only when it collected at least one line. */
  function Flush(o: Option<Open>): seq<Section>
  {
    if o.Some? && |o.value.body| > 0 then [MakeSection(o.value.heading, o.value.body)] else []
  }

  /** The source's loop: a heading flushes the open section and opens a new
      one; any other line joins the open section, or is dropped when none is
      open; the open section is flushed at the end. */
  function Scan(lines: seq<Line>, isHeading: string -> bool, o: Option<Open>): seq<Section>
    decreases |lines|
  {
    if |lines| == 0 then Flush(o)
    else
      var l := lines[0];
      if isHeading(l.text) then Flush(o) + Scan(lines[1..], isHeading, Some(Open(l, [])))
      else if o.Some? then Scan(lines[1..], isHeading, Some(Open(o.value.heading, o.value.body + [l])))
      else Scan(lines[1..], isHeading, None)
  }

  lemma {:induction false} RunOfBody(lines: seq<Line>, isHeading: string -> bool)
    requires forall k :: 0 <= k < |lines| ==> !isHeading(lines[k].text)
    ensures Run(lines, isHeading) == lines
    decreases |lines|
  {
    if |lines| > 0 {
      RunOfBody(lines[1..], isHeading);
    }
  }

  /** The longest prefix of `lines` free of headings. */
  function Run(lines: seq<Line>, isHeading: string -> bool): (r: seq<Line>)
    ensures |r| <= |lines| && r == lines[..|r|]
    ensures forall k :: 0 <= k < |r| ==> !isHeading(r[k].text)
    ensures |r| < |lines| ==> isHeading(lines[|r|].text)
  {
    if |lines| == 0 || isHeading(lines[0].text) then []
    else [lines[0]] + Run(lines[1..], isHeading)
  }

  /** Reference segmentation: skip lines up to the first heading; each heading
      owns the maximal run of non-heading lines after it, and becomes a section
      when that run is non-empty. */
  function Segments(lines: seq<Line>, isHeading: string -> bool): (r: seq<Section>)
    decreases |lines|
  {
    if |lines| == 0 then []
    else if !isHeading(lines[0].text) then Segments(lines[1..], isHeading)
    else
      var run := Run(lines[1..], isHeading);
      Flush(Some(Open(lines[0], run))) + Segments(lines[1..][|run|..], isHeading)
  }

  /** A heading line closes the open section and opens its own. */
  lemma HeadingStep(lines: seq<Line>, isHeading: string -> bool, h: Line, b: seq<Line>)
    requires |lines| > 0 && isHeading(lines[0].text)
    requires var run := Run(lines[1..], isHeading);
             Scan(lines[1..], isHeading, Some(Open(lines[0], [])))
               == Flush(Some(Open(lines[0], [] + run))) + Segments(lines[1..][|run|..], isHeading)
    ensures Scan(lines, isHeading, Some(Open(h, b)))
         == Flush(Some(Open(h, b + Run(lines, isHeading)))) + Segments(lines[|Run(lines, isHeading)|..], isHeading)
  {
    var run := Run(lines[1..], isHeading);
    assert [] + run == run;
    assert Run(lines, isHeading) == [];
    assert b + [] == b;
    assert lines[0..] == lines;
  }

  /** A non-heading line joins the open section. */
  lemma BodyStep(lines: seq<Line>, isHeading: string -> bool, h: Line, b: seq<Line>)
    requires |lines| > 0 && !isHeading(lines[0].text)
    requires var run := Run(lines[1..], isHeading);
             Scan(lines[1..], isHeading, Some(Open(h, b + [lines[0]])))
               == Flush(Some(Open(h, b + [lines[0]] + run))) + Segments(lines[1..][|run|..], isHeading)
    ensures Scan(lines, isHeading, Some(Open(h, b)))
         == Flush(Some(Open(h, b + Run(lines, isHeading)))) + Segments(lines[|Run(lines, isHeading)|..], isHeading)
  {
    var l := lines[0];
    var run := Run(lines[1..], isHeading);
    assert Run(lines, isHeading) == [l] + run;
    assert b + [l] + run == b + ([l] + run);
    assert lines[|[l] + run|..] == lines[1..][|run|..];
  }

  /** From an open section, the loop extends it by the run of non-heading
      lines ahead, flushes it, and then segments the remainder. */
  lemma {:induction false} ScanFromOpen(lines: seq<Line>, isHeading: string -> bool, h: Line, b: seq<Line>)
    ensures Scan(lines, isHeading, Some(Open(h, b)))
         == Flush(Some(Open(h, b + Run(lines, isHeading)))) + Segments(lines[|Run(lines, isHeading)|..], isHeading)
    decreases |lines|
  {
    if |lines| == 0 {
      assert b + [] == b;
    } else if isHeading(lines[0].text) {
      ScanFromOpen(lines[1..], isHeading, lines[0], []);
      HeadingStep(lines, isHeading, h, b);
    } else {
      ScanFromOpen(lines[1..], isHeading, h, b + [lines[0]]);
      BodyStep(lines, isHeading, h, b);
    }
  }

  /** The source's loop computes the reference segmentation. */
  lemma {:induction false} ScanIsSegments(lines: seq<Line>, isHeading: string -> bool)
    ensures Scan(lines, isHeading, None) == Segments(lines, isHeading)
    decreases |lines|
  {
    if |lines| > 0 {
      var rest := lines[1..];
      if isHeading(lines[0].text) {
        ScanFromOpen(rest, isHeading, lines[0], []);
        assert [] + Run(rest, isHeading) == Run(rest, isHeading);
      } else {
        ScanIsSegments(rest, isHeading);
      }
    }
  }

  /** `_identify_sections_from_text(pages)`. */
  function FromText(pages: seq<Page>, isHeading: string -> bool): seq<Section>
  {
    Scan(DocumentLines(pages), isHeading, None)
  }

  /** What every section of the fallback path looks like: a heading line as
      title, level 1, no parents, non-empty content made of non-heading lines,
      and the end page of its last content line. */
  lemma {:induction false} SegmentsShape(lines: seq<Line>, isHeading: string -> bool)
    requires forall k :: 0 <= k < |lines| ==> lines[k].text != ""
    ensures forall s :: s in Segments(lines, isHeading) ==>
      && isHeading(s.title) && s.level == 1 && s.parents == [] && s.content != ""
      && exists k :: 0 <= k < |lines| && lines[k].page == s.pageEnd && !isHeading(lines[k].text)
    decreases |lines|
  {
    if |lines| > 0 {
      var rest := lines[1..];
      if !isHeading(lines[0].text) {
        SegmentsShape(rest, isHeading);
      } else {
        var run := Run(rest, isHeading);
        var after := rest[|run|..];
        SegmentsShape(after, isHeading);
        if |run| > 0 {
          var s := MakeSection(lines[0], run);
          JoinNonEmpty("\n", Texts(run));
          assert run[|run| - 1] == lines[|run|];
        }
        forall s | s in Segments(after, isHeading)
          ensures exists k :: 0 <= k < |lines| && lines[k].page == s.pageEnd && !isHeading(lines[k].text)
        {
          var k :| 0 <= k < |after| && after[k].page == s.pageEnd && !isHeading(after[k].text);
          assert after[k] == lines[1 + |run| + k];
        }
      }
    }
  }

  /** Every fallback section is a level-1 heading with no parents and content. */
  lemma FromTextShape(pages: seq<Page>, isHeading: string -> bool)
    ensures forall s :: s in FromText(pages, isHeading) ==>
      isHeading(s.title) && s.level == 1 && s.parents == [] && s.content != ""
  {
    ScanIsSegments(DocumentLines(pages), isHeading);
    SegmentsShape(DocumentLines(pages), isHeading);
  }

  /** Lines before the first heading are dropped: no preamble section. */
  lemma {:induction false} PreambleDropped(pre: seq<Line>, rest: seq<Line>, isHeading: string -> bool)
    requires forall k :: 0 <= k < |pre| ==> !isHeading(pre[k].text)
    ensures Scan(pre + rest, isHeading, None) == Scan(rest, isHeading, None)
    decreases |pre|
  {
    if |pre| > 0 {
      assert (pre + rest)[0] == pre[0];
      assert (pre + rest)[1..] == pre[1..] + rest;
      PreambleDropped(pre[1..], rest, isHeading);
    } else {
      assert pre + rest == rest;
    }
  }

  /** A heading directly followed by another heading yields no section. */
  lemma HeadingWithoutBodyDiscarded(h1: Line, h2: Line, rest: seq<Line>, isHeading: string -> bool)
    requires isHeading(h1.text) && isHeading(h2.text)
    ensures Scan([h1, h2] + rest, isHeading, None) == Scan([h2] + rest, isHeading, None)
  {
    var lines := [h1, h2] + rest;
    assert lines[1..] == [h2] + rest;
    assert Flush(Some(Open(h1, []))) == [];
  }

  /** The section a heading and its following body lines produce: the body
      joined by newlines, starting on the heading's page and ending on the page
      of its last body line. */
  lemma {:induction false} OneSection(h: Line, body: seq<Line>, isHeading: string -> bool)
    requires isHeading(h.text) && |body| > 0
    requires forall k :: 0 <= k < |body| ==> !isHeading(body[k].text)
    ensures Scan([h] + body, isHeading, None)
         == [Section(h.text, Join("\n", Texts(body)), h.page, body[|body| - 1].page, 1, [])]
  {
    var lines := [h] + body;
    ScanIsSegments(lines, isHeading);
    assert lines[1..] == body;
    RunOfBody(body, isHeading);
    assert body[|body|..] == [];
  }
}
