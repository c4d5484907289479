/** The part of the PDF engine (PyMuPDF, imported as `fitz`) that the viewer's
    controller relies on, modelled abstractly: a document is a sequence of
    pages, each with its size and its highlight annotations; text search is
    an uninterpreted function supplied by the caller; rendering, scrolling,
    message boxes and saving are recorded as effects. */
module Engine {

  datatype Option<T> = None | Some(value: T)

  /** A rectangle in page coordinates (fitz.Rect). */
  datatype Rect = Rect(x0: real, y0: real, x1: real, y1: real)

  /** An annotation on a page; the viewer only ever adds highlights. */
  datatype Annot = Highlight(rect: Rect)

  datatype Page = Page(width: real, height: real, annots: seq<Annot>)

  datatype Document = Document(pages: seq<Page>)

  /** `doc[page].search_for(query)`: the rectangles where `query` occurs on
      the page with that index. */
  type SearchFn = (nat, string) -> seq<Rect>

  /** `len(doc)` */
  function PageCount(d: Document): nat
  {
    |d.pages|
  }

  /** The test `if self.doc:` of the viewer. A fitz.Document defines
      `__len__` and no `__bool__`, so `None` and a document without pages
      are both false. */
  predicate IsOpen(doc: Option<Document>)
  {
    doc.Some? && PageCount(doc.value) > 0
  }

  /** What the viewer does to the canvas: draw the pixmap of a page at a
      zoom, move the view to the top (`yview_moveto(0)`), or scroll by a
      number of units (`yview_scroll`). */
  datatype CanvasOp = Draw(page: nat, zoom: real) | MoveToTop | ScrollUnits(units: int)

  /** The information boxes the viewer shows. */
  datatype Notice = NotFound(query: string) | Saved(path: string)

  /** A call of `doc.save(path)`, with the document as it was written. */
  datatype SaveRecord = SaveRecord(path: string, doc: Document)

  /** The highlight annotations made from a list of rectangles, in order. */
  function Highlights(rects: seq<Rect>): (r: seq<Annot>)
    ensures |r| == |rects|
    ensures forall i :: 0 <= i < |rects| ==> r[i] == Highlight(rects[i])
  {
    if rects == [] then [] else Highlights(rects[..|rects| - 1]) + [Highlight(rects[|rects| - 1])]
  }

  /** `doc[p].add_highlight_annot(rect)`: page `p` gains one highlight at the
      end of its annotations; no other page and no page size changes. */
  function AddHighlightAnnot(d: Document, p: nat, rect: Rect): (r: Document)
    requires p < PageCount(d)
    ensures PageCount(r) == PageCount(d)
    ensures r.pages[p].annots == d.pages[p].annots + [Highlight(rect)]
    ensures r.pages[p].width == d.pages[p].width && r.pages[p].height == d.pages[p].height
    ensures forall q :: 0 <= q < PageCount(d) && q != p ==> r.pages[q] == d.pages[q]
  {
    Document(d.pages[p := d.pages[p].(annots := d.pages[p].annots + [Highlight(rect)])])
  }

  /** `for rect in rects: page.add_highlight_annot(rect)` on page `p`. */
  function HighlightAll(d: Document, p: nat, rects: seq<Rect>): (r: Document)
    requires p < PageCount(d)
    ensures PageCount(r) == PageCount(d)
    ensures r.pages[p].annots == d.pages[p].annots + Highlights(rects)
    ensures r.pages[p].width == d.pages[p].width && r.pages[p].height == d.pages[p].height
    ensures forall q :: 0 <= q < PageCount(d) && q != p ==> r.pages[q] == d.pages[q]
  {
    if rects == [] then d
    else AddHighlightAnnot(HighlightAll(d, p, rects[..|rects| - 1]), p, rects[|rects| - 1])
  }

  /** Highlighting a page adds exactly one annotation per rectangle to it,
      and the document keeps its pages. */
  lemma HighlightAllCount(d: Document, p: nat, rects: seq<Rect>)
    requires p < PageCount(d)
    ensures |HighlightAll(d, p, rects).pages[p].annots| == |d.pages[p].annots| + |rects|
    ensures rects == [] ==> HighlightAll(d, p, rects) == d
  {
  }
}
