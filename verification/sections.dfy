/** Section identification (`PDFParser.identify_sections`): the outline
    drives it when there is one, the heading predicate otherwise. */
module Sections {
  import opened DataModels
  import Outline
  import Fallback

  function IdentifySections(toc: seq<TocEntry>, pages: seq<Page>, totalPages: int,
                            isHeading: string -> bool): seq<Section>
  {
    if |toc| == 0 then Fallback.FromText(pages, isHeading)
    else Outline.FromOutline(toc, pages, totalPages)
  }

  /** Whichever path runs, no identified section is empty; without an outline
      every section is a level-1 heading with no parents. */
  lemma IdentifiedSectionsNonEmpty(toc: seq<TocEntry>, pages: seq<Page>, totalPages: int,
                                   isHeading: string -> bool)
    ensures forall s :: s in IdentifySections(toc, pages, totalPages, isHeading) ==> s.content != ""
    ensures |toc| == 0 ==> forall s :: s in IdentifySections(toc, pages, totalPages, isHeading) ==>
              s.level == 1 && s.parents == [] && isHeading(s.title)
  {
    if |toc| == 0 {
      Fallback.FromTextShape(pages, isHeading);
    }
  }
}
