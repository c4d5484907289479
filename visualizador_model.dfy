/** The page-view controller of visualizador_PDF.py as a state machine on
    values. This variant keeps no previous query, has no occurrence label,
    no maximize toggle and no mouse-wheel handler, and its `show_page` does
    not move the view back to the top. */
module VisualizadorModel {
  import opened Engine

  /** `self.zoom = 2` */
  const StartZoom: real := 2.0

  /** The instance fields of `PDFViewer` the controller reads or writes,
      plus a log of the effects on the canvas, the information boxes shown
      and the files saved. `filePath` is `None` while the attribute has not
      been assigned yet. */
  datatype ViewState = ViewState(
    doc: Option<Document>,
    filePath: Option<string>,
    currentPage: nat,
    zoom: real,
    canvas: seq<CanvasOp>,
    notices: seq<Notice>,
    saves: seq<SaveRecord>)

  /** The page index names a page of the open document, and is 0 when no
      document (or an empty one) is open. */
  predicate Valid(s: ViewState)
  {
    if IsOpen(s.doc) then s.currentPage < PageCount(s.doc.value) else s.currentPage == 0
  }

  /** Index of the last page of the open document. */
  function LastPage(s: ViewState): nat
    requires IsOpen(s.doc)
  {
    PageCount(s.doc.value) - 1
  }

  /** The view before any callback has run: no document, first page,
      zoom 2. */
  function Init(): (s: ViewState)
    ensures Valid(s) && !IsOpen(s.doc) && s.filePath == None
    ensures s.currentPage == 0 && s.zoom == 2.0 && s.canvas == [] && s.saves == []
  {
    ViewState(None, None, 0, StartZoom, [], [], [])
  }

  /** `show_page`: with a document open, draw the current page at the
      current zoom; the scroll position is kept. */
  function ShowPage(s: ViewState): (r: ViewState)
    ensures r == s.(canvas := r.canvas)
    ensures IsOpen(s.doc) ==> r.canvas == s.canvas + [Draw(s.currentPage, s.zoom)]
    ensures !IsOpen(s.doc) ==> r == s
  {
    if IsOpen(s.doc) then s.(canvas := s.canvas + [Draw(s.currentPage, s.zoom)]) else s
  }

  /** `open_pdf`, given the path the file dialog returned ("" when it was
      cancelled) and what `fitz.open(path)` yields (`None` when it raises). */
  function OpenPdf(s: ViewState, path: string, loaded: Option<Document>): (r: ViewState)
    ensures Valid(s) ==> Valid(r)
    ensures r == s.(doc := r.doc, filePath := r.filePath, currentPage := r.currentPage, canvas := r.canvas)
    ensures path != "" && loaded.Some? ==>
              r.canvas == s.canvas + if IsOpen(loaded) then [Draw(0, s.zoom)] else []
  {
    if path == "" || loaded.None? then s
    else ShowPage(s.(doc := loaded, filePath := Some(path), currentPage := 0))
  }

  /** `prev_page` */
  function PrevPage(s: ViewState): (r: ViewState)
    ensures Valid(s) ==> Valid(r)
    ensures r.doc == s.doc && r.zoom == s.zoom
    ensures r.currentPage <= s.currentPage
    ensures r == s.(currentPage := r.currentPage, canvas := r.canvas)
    ensures IsOpen(s.doc) && s.currentPage > 0 ==>
              r.canvas == s.canvas + [Draw(s.currentPage - 1, s.zoom)]
  {
    if IsOpen(s.doc) && s.currentPage > 0 then ShowPage(s.(currentPage := s.currentPage - 1))
    else s
  }

  /** `next_page` */
  function NextPage(s: ViewState): (r: ViewState)
    ensures Valid(s) ==> Valid(r)
    ensures r.doc == s.doc && r.zoom == s.zoom
    ensures r.currentPage >= s.currentPage
    ensures r == s.(currentPage := r.currentPage, canvas := r.canvas)
    ensures IsOpen(s.doc) && s.currentPage < PageCount(s.doc.value) - 1 ==>
              r.canvas == s.canvas + [Draw(s.currentPage + 1, s.zoom)]
  {
    if IsOpen(s.doc) && s.currentPage < PageCount(s.doc.value) - 1
    then ShowPage(s.(currentPage := s.currentPage + 1))
    else s
  }

  /** `change_zoom(factor)` */
  function ChangeZoom(s: ViewState, factor: real): (r: ViewState)
    ensures Valid(s) ==> Valid(r)
    ensures r == s.(zoom := r.zoom, canvas := r.canvas)
    ensures s.zoom > 0.0 && factor > 0.0 ==> r.zoom > 0.0
    ensures IsOpen(s.doc) ==>
              r.zoom == s.zoom * factor && r.canvas == s.canvas + [Draw(s.currentPage, r.zoom)]
    ensures !IsOpen(s.doc) ==> r == s
  {
    if IsOpen(s.doc) then ShowPage(s.(zoom := s.zoom * factor)) else s
  }

  /** `search_text`, given the text of the search entry and the engine's
      search. An empty entry does nothing: there is no previous query to
      fall back on. */
  function SearchText(s: ViewState, entry: string, searchFor: SearchFn): (r: ViewState)
    requires Valid(s)
    ensures Valid(r)
    ensures r == s.(doc := r.doc, canvas := r.canvas, notices := r.notices)
    ensures !IsOpen(s.doc) ==> r == s
  {
    if !IsOpen(s.doc) || entry == "" then s
    else
      var results := searchFor(s.currentPage, entry);
      if results == [] then s.(notices := s.notices + [NotFound(entry)])
      else ShowPage(s.(doc := Some(HighlightAll(s.doc.value, s.currentPage, results))))
  }

  /** `save_pdf`, given the path the save dialog returned ("" when it was
      cancelled). */
  function SavePdf(s: ViewState, savePath: string): (r: ViewState)
    ensures r == s.(saves := r.saves, notices := r.notices)
    ensures |r.saves| <= |s.saves| + 1
  {
    if IsOpen(s.doc) && savePath != "" then
      s.(saves := s.saves + [SaveRecord(savePath, s.doc.value)],
         notices := s.notices + [Saved(savePath)])
    else s
  }

  // ---------------------------------------------------------------------
  // Navigation

  /** `prev_page` moves back by exactly one page when a document is open and
      the current page is not the first; otherwise it changes nothing. */
  lemma PrevPageMoves(s: ViewState)
    ensures IsOpen(s.doc) && s.currentPage > 0 <==> PrevPage(s).currentPage == s.currentPage - 1
    ensures !(IsOpen(s.doc) && s.currentPage > 0) <==> PrevPage(s) == s
  {
    if IsOpen(s.doc) && s.currentPage > 0 {
      assert |PrevPage(s).canvas| == |s.canvas| + 1;
    }
  }

  /** `next_page` moves on by exactly one page when there is a next page;
      otherwise it changes nothing. */
  lemma NextPageMoves(s: ViewState)
    ensures (IsOpen(s.doc) && s.currentPage < LastPage(s)) <==> NextPage(s).currentPage == s.currentPage + 1
    ensures !(IsOpen(s.doc) && s.currentPage < LastPage(s)) <==> NextPage(s) == s
  {
    if IsOpen(s.doc) && s.currentPage < LastPage(s) {
      assert |NextPage(s).canvas| == |s.canvas| + 1;
    }
  }

  /** `k` presses of "next page". */
  function NextPages(s: ViewState, k: nat): ViewState
    decreases k
  {
    if k == 0 then s else NextPages(NextPage(s), k - 1)
  }

  /** From a valid state, `k` presses of "next page" reach page
      `min(currentPage + k, last page)`, keeping document and zoom; so the
      index never leaves the document's pages. */
  lemma {:induction false} NextPagesClamp(s: ViewState, k: nat)
    requires Valid(s) && IsOpen(s.doc)
    ensures Valid(NextPages(s, k))
    ensures NextPages(s, k).doc == s.doc && NextPages(s, k).zoom == s.zoom
    ensures NextPages(s, k).currentPage ==
              if s.currentPage + k <= LastPage(s) then s.currentPage + k else LastPage(s)
    decreases k
  {
    if k > 0 {
      NextPageMoves(s);
      NextPagesClamp(NextPage(s), k - 1);
    }
  }

  // ---------------------------------------------------------------------
  // Opening

  /** A confirmed dialog whose file opens resets the page to 0 and keeps the
      zoom; a cancelled dialog or a file that fails to open changes
      nothing. */
  lemma OpenPdfEffect(s: ViewState, path: string, loaded: Option<Document>)
    ensures path == "" || loaded.None? ==> OpenPdf(s, path, loaded) == s
    ensures path != "" && loaded.Some? ==>
              var r := OpenPdf(s, path, loaded);
              r.doc == loaded && r.filePath == Some(path) && r.currentPage == 0 && Valid(r) &&
              r.zoom == s.zoom && r.saves == s.saves
  {
  }

  // ---------------------------------------------------------------------
  // Zoom

  /** Zoom factors compose multiplicatively: two zoom steps leave the same
      zoom, page and document as one step by the product. */
  lemma ChangeZoomComposes(s: ViewState, a: real, b: real)
    ensures ChangeZoom(ChangeZoom(s, a), b).zoom == ChangeZoom(s, a * b).zoom
    ensures ChangeZoom(ChangeZoom(s, a), b).currentPage == ChangeZoom(s, a * b).currentPage
    ensures ChangeZoom(ChangeZoom(s, a), b).doc == ChangeZoom(s, a * b).doc
  {
  }

  /** With a document open, zooming is a redraw at the scaled zoom. */
  lemma ChangeZoomOpen(s: ViewState, f: real)
    requires IsOpen(s.doc)
    ensures ChangeZoom(s, f) == ShowPage(s.(zoom := s.zoom * f))
  {
  }

  /** Without a document open, zooming is a no-op. */
  lemma ChangeZoomClosed(s: ViewState, f: real)
    requires !IsOpen(s.doc)
    ensures ChangeZoom(s, f) == s
  {
  }

  // ---------------------------------------------------------------------
  // Search

  /** An empty entry does nothing, whatever was searched before. */
  lemma SearchEmptyEntry(s: ViewState, searchFor: SearchFn)
    requires Valid(s)
    ensures SearchText(s, "", searchFor) == s
  {
  }

  /** A search adds to the current page exactly one highlight per rectangle
      the engine found there and changes no other page; with no results the
      only effect is the "not found" box. */
  lemma SearchHighlights(s: ViewState, entry: string, searchFor: SearchFn)
    requires Valid(s) && IsOpen(s.doc) && entry != ""
    ensures var r := SearchText(s, entry, searchFor);
            var results := searchFor(s.currentPage, entry);
            var p := s.currentPage;
            r.doc.Some? && PageCount(r.doc.value) == PageCount(s.doc.value) &&
            r.doc.value.pages[p].annots == s.doc.value.pages[p].annots + Highlights(results) &&
            |r.doc.value.pages[p].annots| == |s.doc.value.pages[p].annots| + |results| &&
            (forall q :: 0 <= q < PageCount(s.doc.value) && q != p ==>
               r.doc.value.pages[q] == s.doc.value.pages[q]) &&
            (results == [] ==> r == s.(notices := s.notices + [NotFound(entry)])) &&
            (results != [] ==> r.doc == Some(HighlightAll(s.doc.value, p, results)) &&
                               r.notices == s.notices && r.canvas == s.canvas + [Draw(p, s.zoom)])
  {
    var results := searchFor(s.currentPage, entry);
    if results != [] {
      HighlightAllCount(s.doc.value, s.currentPage, results);
    }
  }

  // ---------------------------------------------------------------------
  // Saving

  /** A save writes the document as it is only when a document is open and a
      path was chosen, and never changes the page, the zoom or the
      document. */
  lemma SavePdfEffect(s: ViewState, savePath: string)
    ensures var r := SavePdf(s, savePath);
            r.currentPage == s.currentPage && r.zoom == s.zoom && r.doc == s.doc &&
            s.saves <= r.saves &&
            (r.saves != s.saves <==> IsOpen(s.doc) && savePath != "") &&
            (r.saves != s.saves ==> r.saves[|s.saves|] == SaveRecord(savePath, s.doc.value)) &&
            r.notices == s.notices + if IsOpen(s.doc) && savePath != "" then [Saved(savePath)] else []
  {
    var r := SavePdf(s, savePath);
    if IsOpen(s.doc) && savePath != "" {
      assert |r.saves| == |s.saves| + 1;
    }
  }
}
