/** The page-view controller of view_pdf_robson.py as a state machine on
    values: one function per button, key or wheel callback, each a guarded
    transition of `ViewState`, and the properties those transitions have. */
module RobsonModel {
  import opened Engine

  /** A Tk window geometry, `WIDTHxHEIGHT+X+Y`. */
  datatype Geometry = Geometry(width: int, height: int, x: int, y: int)

  /** A mouse-wheel event as Tk delivers it: the modifier bit mask `state`,
      the button number `num` (4 and 5 are the X11 wheel buttons) and, when
      the event has one, the wheel `delta`. */
  datatype WheelEvent = WheelEvent(state: nat, num: int, delta: Option<int>)

  /** `root.geometry("1000x700+100+100")` */
  const StartGeometry := Geometry(1000, 700, 100, 100)

  /** `self.zoom = 2` */
  const StartZoom: real := 2.0

  /** Every instance field of `PDFViewer` the controller reads or writes,
      plus the window geometry and a log of the effects on the canvas, the
      information boxes shown and the files saved. `resultsLabel` is the
      number shown by the "Ocorrências" label. */
  datatype ViewState = ViewState(
    doc: Option<Document>,
    filePath: Option<string>,
    currentPage: nat,
    zoom: real,
    lastSearch: string,
    resultsLabel: nat,
    isMaximized: bool,
    lastGeometry: Geometry,
    window: Geometry,
    canvas: seq<CanvasOp>,
    notices: seq<Notice>,
    saves: seq<SaveRecord>)

  /** The page index names a page of the open document, and is 0 when no
      document (or an empty one) is open. */
  predicate Valid(s: ViewState)
  {
    if IsOpen(s.doc) then s.currentPage < PageCount(s.doc.value) else s.currentPage == 0
  }

  /** Index of the last page of the open document. */
  function LastPage(s: ViewState): nat
    requires IsOpen(s.doc)
  {
    PageCount(s.doc.value) - 1
  }

  /** The view before any callback has run. */
  function Init(): (s: ViewState)
    ensures Valid(s) && !IsOpen(s.doc) && s.filePath == None
    ensures s.currentPage == 0 && s.zoom == 2.0 && s.lastSearch == ""
    ensures !s.isMaximized && s.canvas == [] && s.saves == []
  {
    ViewState(None, None, 0, StartZoom, "", 0, false, StartGeometry, StartGeometry, [], [], [])
  }

  /** `show_page`: with a document open, draw the current page at the
      current zoom and move the view to the top; nothing else changes. */
  function ShowPage(s: ViewState): (r: ViewState)
    ensures r == s.(canvas := r.canvas)
    ensures IsOpen(s.doc) ==> r.canvas == s.canvas + [Draw(s.currentPage, s.zoom), MoveToTop]
    ensures !IsOpen(s.doc) ==> r == s
  {
    if IsOpen(s.doc) then s.(canvas := s.canvas + [Draw(s.currentPage, s.zoom), MoveToTop]) else s
  }

  /** `open_pdf`, given the path the file dialog returned ("" when it was
      cancelled) and what `fitz.open(path)` yields (`None` when it raises). */
  function OpenPdf(s: ViewState, path: string, loaded: Option<Document>): (r: ViewState)
    ensures Valid(s) ==> Valid(r)
    ensures r == s.(doc := r.doc, filePath := r.filePath, currentPage := r.currentPage, canvas := r.canvas)
    ensures path != "" && loaded.Some? ==>
              r.canvas == s.canvas + if IsOpen(loaded) then [Draw(0, s.zoom), MoveToTop] else []
  {
    if path == "" || loaded.None? then s
    else ShowPage(s.(doc := loaded, filePath := Some(path), currentPage := 0))
  }

  /** `prev_page` */
  function PrevPage(s: ViewState): (r: ViewState)
    ensures Valid(s) ==> Valid(r)
    ensures r.doc == s.doc && r.zoom == s.zoom
    ensures r.currentPage <= s.currentPage
    ensures r == s.(currentPage := r.currentPage, canvas := r.canvas)
    ensures IsOpen(s.doc) && s.currentPage > 0 ==>
              r.canvas == s.canvas + [Draw(s.currentPage - 1, s.zoom), MoveToTop]
  {
    if IsOpen(s.doc) && s.currentPage > 0 then ShowPage(s.(currentPage := s.currentPage - 1))
    else s
  }

  /** `next_page` */
  function NextPage(s: ViewState): (r: ViewState)
    ensures Valid(s) ==> Valid(r)
    ensures r.doc == s.doc && r.zoom == s.zoom
    ensures r.currentPage >= s.currentPage
    ensures r == s.(currentPage := r.currentPage, canvas := r.canvas)
    ensures IsOpen(s.doc) && s.currentPage < PageCount(s.doc.value) - 1 ==>
              r.canvas == s.canvas + [Draw(s.currentPage + 1, s.zoom), MoveToTop]
  {
    if IsOpen(s.doc) && s.currentPage < PageCount(s.doc.value) - 1
    then ShowPage(s.(currentPage := s.currentPage + 1))
    else s
  }

  /** `change_zoom(factor)` */
  function ChangeZoom(s: ViewState, factor: real): (r: ViewState)
    ensures Valid(s) ==> Valid(r)
    ensures r == s.(zoom := r.zoom, canvas := r.canvas)
    ensures s.zoom > 0.0 && factor > 0.0 ==> r.zoom > 0.0
    ensures IsOpen(s.doc) ==>
              r.zoom == s.zoom * factor && r.canvas == s.canvas + [Draw(s.currentPage, r.zoom), MoveToTop]
    ensures !IsOpen(s.doc) ==> r == s
  {
    if IsOpen(s.doc) then ShowPage(s.(zoom := s.zoom * factor)) else s
  }

  /** Height of the page on display. */
  function CurrentHeight(s: ViewState): real
    requires Valid(s) && IsOpen(s.doc)
  {
    s.doc.value.pages[s.currentPage].height
  }

  /** `fit_height`, given the window height `winfo_height()` reports. A page
      of height 0 makes the division raise ZeroDivisionError before anything
      is assigned, so the state is left as it was. */
  function FitHeight(s: ViewState, windowHeight: int): (r: ViewState)
    requires Valid(s)
    ensures Valid(r)
    ensures r == s.(zoom := r.zoom, canvas := r.canvas)
    ensures IsOpen(s.doc) && CurrentHeight(s) != 0.0 ==>
              r.zoom * CurrentHeight(s) == windowHeight as real &&
              r.canvas == s.canvas + [Draw(s.currentPage, r.zoom), MoveToTop]
    ensures !IsOpen(s.doc) || CurrentHeight(s) == 0.0 ==> r == s
  {
    if !IsOpen(s.doc) || CurrentHeight(s) == 0.0 then s
    else ShowPage(s.(zoom := windowHeight as real / CurrentHeight(s)))
  }

  /** `self.entry_search.get() or self.last_search` */
  function Query(entry: string, lastSearch: string): (q: string)
    ensures q == "" <==> entry == "" && lastSearch == ""
    ensures entry != "" ==> q == entry
    ensures entry == "" ==> q == lastSearch
  {
    if entry != "" then entry else lastSearch
  }

  /** `search_text`, given the text of the search entry and the engine's
      search. Only the current page is searched; each result becomes one
      highlight on it. */
  function SearchText(s: ViewState, entry: string, searchFor: SearchFn): (r: ViewState)
    requires Valid(s)
    ensures Valid(r)
    ensures r == s.(doc := r.doc, lastSearch := r.lastSearch, resultsLabel := r.resultsLabel,
                    canvas := r.canvas, notices := r.notices)
    ensures !IsOpen(s.doc) ==> r == s
  {
    if !IsOpen(s.doc) then s
    else
      var query := Query(entry, s.lastSearch);
      if query == "" then s
      else
        var results := searchFor(s.currentPage, query);
        if results == [] then
          s.(lastSearch := query, resultsLabel := 0, notices := s.notices + [NotFound(query)])
        else
          ShowPage(s.(lastSearch := query,
                      doc := Some(HighlightAll(s.doc.value, s.currentPage, results)),
                      resultsLabel := |results|))
  }

  /** `save_pdf`, given the path the save dialog returned ("" when it was
      cancelled). */
  function SavePdf(s: ViewState, savePath: string): (r: ViewState)
    ensures r == s.(saves := r.saves, notices := r.notices)
    ensures |r.saves| <= |s.saves| + 1
  {
    if IsOpen(s.doc) && savePath != "" then
      s.(saves := s.saves + [SaveRecord(savePath, s.doc.value)],
         notices := s.notices + [Saved(savePath)])
    else s
  }

  /** `toggle_maximize`, given the screen size. Only the window fields
      change. */
  function ToggleMaximize(s: ViewState, screenWidth: int, screenHeight: int): (r: ViewState)
    ensures r == s.(isMaximized := r.isMaximized, lastGeometry := r.lastGeometry, window := r.window)
    ensures r.isMaximized == !s.isMaximized
  {
    if !s.isMaximized then
      s.(lastGeometry := s.window, window := Geometry(screenWidth, screenHeight, 0, 0), isMaximized := true)
    else
      s.(window := s.lastGeometry, isMaximized := false)
  }

  /** `(event.state & 0x0004) != 0` */
  predicate CtrlPressed(e: WheelEvent): (r: bool)
    ensures e.state < 0x1_0000_0000 ==> (r <==> (e.state as bv32) & 4 != 0)
  {
    (e.state / 4) % 2 == 1
  }

  /** `event.num == 4 or (hasattr(event, "delta") and event.delta > 0)` */
  predicate WheelUp(e: WheelEvent)
  {
    e.num == 4 || (e.delta.Some? && e.delta.value > 0)
  }

  /** `event.num == 5 or (hasattr(event, "delta") and event.delta < 0)` */
  predicate WheelDown(e: WheelEvent)
  {
    e.num == 5 || (e.delta.Some? && e.delta.value < 0)
  }

  /** `on_scroll`, given the event and the fractions `(top, bottom)` that
      `canvas.yview()` reports after the scroll step. */
  function OnScroll(s: ViewState, e: WheelEvent, top: real, bottom: real): (r: ViewState)
    ensures Valid(s) ==> Valid(r)
    ensures r == s.(currentPage := r.currentPage, zoom := r.zoom, canvas := r.canvas)
  {
    if !IsOpen(s.doc) then s
    else if CtrlPressed(e) then
      if WheelUp(e) then ChangeZoom(s, 1.1)
      else if WheelDown(e) then ChangeZoom(s, 0.9)
      else s
    else if WheelUp(e) then
      var scrolled := s.(canvas := s.canvas + [ScrollUnits(-1)]);
      if top <= 0.0 then PrevPage(scrolled) else scrolled
    else if WheelDown(e) then
      var scrolled := s.(canvas := s.canvas + [ScrollUnits(1)]);
      if bottom >= 1.0 then NextPage(scrolled) else scrolled
    else s
  }

  // ---------------------------------------------------------------------
  // Navigation

  /** `prev_page` moves back by exactly one page when a document is open and
      the current page is not the first; otherwise it changes nothing. */
  lemma PrevPageMoves(s: ViewState)
    ensures IsOpen(s.doc) && s.currentPage > 0 <==> PrevPage(s).currentPage == s.currentPage - 1
    ensures !(IsOpen(s.doc) && s.currentPage > 0) <==> PrevPage(s) == s
  {
    if IsOpen(s.doc) && s.currentPage > 0 {
      assert |PrevPage(s).canvas| == |s.canvas| + 2;
    }
  }

  /** `next_page` moves on by exactly one page when there is a next page;
      otherwise it changes nothing. */
  lemma NextPageMoves(s: ViewState)
    ensures (IsOpen(s.doc) && s.currentPage < LastPage(s)) <==> NextPage(s).currentPage == s.currentPage + 1
    ensures !(IsOpen(s.doc) && s.currentPage < LastPage(s)) <==> NextPage(s) == s
  {
    if IsOpen(s.doc) && s.currentPage < LastPage(s) {
      assert |NextPage(s).canvas| == |s.canvas| + 2;
    }
  }

  /** `k` presses of "next page". */
  function NextPages(s: ViewState, k: nat): ViewState
    decreases k
  {
    if k == 0 then s else NextPages(NextPage(s), k - 1)
  }

  /** At the last page, any number of further "next page" presses changes
      nothing. */
  lemma {:induction false} NextPagesAtLast(s: ViewState, k: nat)
    requires IsOpen(s.doc) && s.currentPage == LastPage(s)
    ensures NextPages(s, k) == s
    decreases k
  {
    if k > 0 {
      NextPageMoves(s);
      NextPagesAtLast(NextPage(s), k - 1);
    }
  }

  /** From a valid state, `k` presses of "next page" reach page
      `min(currentPage + k, last page)`, keeping document and zoom. */
  lemma {:induction false} NextPagesClamp(s: ViewState, k: nat)
    requires Valid(s) && IsOpen(s.doc)
    ensures Valid(NextPages(s, k))
    ensures NextPages(s, k).doc == s.doc && NextPages(s, k).zoom == s.zoom
    ensures NextPages(s, k).currentPage ==
              if s.currentPage + k <= LastPage(s) then s.currentPage + k else LastPage(s)
    decreases k
  {
    if k > 0 {
      NextPageMoves(s);
      NextPagesClamp(NextPage(s), k - 1);
    }
  }

  /** Opening a document of `n` pages and pressing "next page" `n` times or
      more ends on the last page. */
  lemma OpenThenNextPages(s: ViewState, path: string, d: Document, k: nat)
    requires path != "" && PageCount(d) > 0 && k >= PageCount(d) - 1
    ensures NextPages(OpenPdf(s, path, Some(d)), k).currentPage == PageCount(d) - 1
  {
    NextPagesClamp(OpenPdf(s, path, Some(d)), k);
  }

  // ---------------------------------------------------------------------
  // Opening

  /** A confirmed dialog whose file opens resets the page to 0 and records
      the path, keeping zoom and last query; a cancelled dialog or a file
      that fails to open changes nothing. */
  lemma OpenPdfEffect(s: ViewState, path: string, loaded: Option<Document>)
    ensures path == "" || loaded.None? ==> OpenPdf(s, path, loaded) == s
    ensures path != "" && loaded.Some? ==>
              var r := OpenPdf(s, path, loaded);
              r.doc == loaded && r.filePath == Some(path) && r.currentPage == 0 && Valid(r) &&
              r.zoom == s.zoom && r.lastSearch == s.lastSearch && r.saves == s.saves
  {
  }

  // ---------------------------------------------------------------------
  // Zoom

  /** Zoom factors compose multiplicatively: two zoom steps leave the same
      zoom, page and document as one step by the product. */
  lemma ChangeZoomComposes(s: ViewState, a: real, b: real)
    ensures ChangeZoom(ChangeZoom(s, a), b).zoom == ChangeZoom(s, a * b).zoom
    ensures ChangeZoom(ChangeZoom(s, a), b).currentPage == ChangeZoom(s, a * b).currentPage
    ensures ChangeZoom(ChangeZoom(s, a), b).doc == ChangeZoom(s, a * b).doc
  {
  }

  /** With a document open, zooming is a redraw at the scaled zoom. */
  lemma ChangeZoomOpen(s: ViewState, f: real)
    requires IsOpen(s.doc)
    ensures ChangeZoom(s, f) == ShowPage(s.(zoom := s.zoom * f))
  {
  }

  /** Without a document open, zooming is a no-op. */
  lemma ChangeZoomClosed(s: ViewState, f: real)
    requires !IsOpen(s.doc)
    ensures ChangeZoom(s, f) == s
  {
  }

  /** Fitting to the window height does not depend on the zoom before it,
      and draws the current page at that zoom. */
  lemma FitHeightIgnoresZoom(s: ViewState, z: real, windowHeight: int)
    requires Valid(s) && IsOpen(s.doc) && CurrentHeight(s) != 0.0
    ensures FitHeight(s.(zoom := z), windowHeight).zoom == FitHeight(s, windowHeight).zoom
    ensures FitHeight(s, windowHeight).canvas ==
              s.canvas + [Draw(s.currentPage, windowHeight as real / CurrentHeight(s)), MoveToTop]
  {
    assert CurrentHeight(s.(zoom := z)) == CurrentHeight(s);
  }

  // ---------------------------------------------------------------------
  // Search

  /** An empty entry falls back to the previous query; with both empty the
      search does nothing. */
  lemma SearchQuery(s: ViewState, entry: string, searchFor: SearchFn)
    requires Valid(s)
    ensures entry == "" && s.lastSearch == "" ==> SearchText(s, entry, searchFor) == s
    ensures IsOpen(s.doc) && Query(entry, s.lastSearch) != "" ==>
              SearchText(s, entry, searchFor).lastSearch == Query(entry, s.lastSearch)
    ensures IsOpen(s.doc) && entry == "" ==>
              SearchText(s, entry, searchFor).lastSearch == s.lastSearch
  {
  }

  /** A search with a query adds to the current page exactly one highlight
      per rectangle the engine found for that query there, shows that count,
      and changes no other page. With no results, no annotation is added and
      the count shown is 0. */
  lemma SearchHighlights(s: ViewState, entry: string, searchFor: SearchFn)
    requires Valid(s) && IsOpen(s.doc) && Query(entry, s.lastSearch) != ""
    ensures var r := SearchText(s, entry, searchFor);
            var results := searchFor(s.currentPage, Query(entry, s.lastSearch));
            var p := s.currentPage;
            r.doc.Some? && PageCount(r.doc.value) == PageCount(s.doc.value) &&
            r.doc.value.pages[p].annots == s.doc.value.pages[p].annots + Highlights(results) &&
            |r.doc.value.pages[p].annots| == |s.doc.value.pages[p].annots| + |results| &&
            r.resultsLabel == |results| &&
            (forall q :: 0 <= q < PageCount(s.doc.value) && q != p ==>
               r.doc.value.pages[q] == s.doc.value.pages[q]) &&
            (results == [] ==> r.doc == s.doc && r.canvas == s.canvas &&
                               r.notices == s.notices + [NotFound(r.lastSearch)]) &&
            (results != [] ==> r.doc == Some(HighlightAll(s.doc.value, p, results)) &&
                               r.notices == s.notices &&
                               r.canvas == s.canvas + [Draw(p, s.zoom), MoveToTop])
  {
    var results := searchFor(s.currentPage, Query(entry, s.lastSearch));
    if results != [] {
      HighlightAllCount(s.doc.value, s.currentPage, results);
    }
  }

  // ---------------------------------------------------------------------
  // Saving

  /** A save writes the document as it is, annotations included, only when a
      document is open and a path was chosen, and never changes the page,
      the zoom or the document. */
  lemma SavePdfEffect(s: ViewState, savePath: string)
    ensures var r := SavePdf(s, savePath);
            r.currentPage == s.currentPage && r.zoom == s.zoom && r.doc == s.doc &&
            s.saves <= r.saves &&
            (r.saves != s.saves <==> IsOpen(s.doc) && savePath != "") &&
            (r.saves != s.saves ==> r.saves[|s.saves|] == SaveRecord(savePath, s.doc.value)) &&
            r.notices == s.notices + if IsOpen(s.doc) && savePath != "" then [Saved(savePath)] else []
  {
    var r := SavePdf(s, savePath);
    if IsOpen(s.doc) && savePath != "" {
      assert |r.saves| == |s.saves| + 1;
    }
  }

  // ---------------------------------------------------------------------
  // Window

  /** Maximizing then restoring puts back the geometry the window had before
      maximizing, and leaves the controller's state alone. */
  lemma ToggleTwiceRestores(s: ViewState, w1: int, h1: int, w2: int, h2: int)
    requires !s.isMaximized
    ensures var m := ToggleMaximize(s, w1, h1);
            m.isMaximized && m.window == Geometry(w1, h1, 0, 0) && m.lastGeometry == s.window
    ensures ToggleMaximize(ToggleMaximize(s, w1, h1), w2, h2) == s.(lastGeometry := s.window)
  {
  }

  // ---------------------------------------------------------------------
  // Mouse wheel

  /** With Ctrl held the wheel only zooms, up by 1.1 and down by 0.9 (up
      wins when both hold), and never changes the page. */
  lemma ScrollWithCtrlZooms(s: ViewState, e: WheelEvent, top: real, bottom: real)
    requires IsOpen(s.doc) && CtrlPressed(e)
    ensures var r := OnScroll(s, e, top, bottom);
            r.currentPage == s.currentPage &&
            r.zoom == (if WheelUp(e) then s.zoom * 1.1 else if WheelDown(e) then s.zoom * 0.9 else s.zoom)
  {
  }

  /** Without Ctrl the wheel never zooms; scrolling up turns to the previous
      page only when the view reached the top, scrolling down turns to the
      next page only when it reached the bottom. */
  lemma ScrollWithoutCtrlPages(s: ViewState, e: WheelEvent, top: real, bottom: real)
    requires IsOpen(s.doc) && !CtrlPressed(e)
    ensures var r := OnScroll(s, e, top, bottom);
            r.zoom == s.zoom &&
            (WheelUp(e) ==> r.currentPage == (if top <= 0.0 && s.currentPage > 0 then s.currentPage - 1 else s.currentPage)) &&
            (!WheelUp(e) && WheelDown(e) ==>
               r.currentPage == (if bottom >= 1.0 && s.currentPage < LastPage(s) then s.currentPage + 1 else s.currentPage)) &&
            (!WheelUp(e) && !WheelDown(e) ==> r == s)
  {
    if WheelUp(e) {
      PrevPageMoves(s.(canvas := s.canvas + [ScrollUnits(-1)]));
    } else if WheelDown(e) {
      NextPageMoves(s.(canvas := s.canvas + [ScrollUnits(1)]));
    }
  }

  /** What one wheel step records: with Ctrl it is exactly a zoom step by
      1.1 or 0.9; without Ctrl it scrolls one unit, and turns the page, with
      its redraw, only at the top or bottom end of the scroll range. */
  lemma ScrollEffect(s: ViewState, e: WheelEvent, top: real, bottom: real)
    requires Valid(s) && IsOpen(s.doc)
    ensures CtrlPressed(e) && WheelUp(e) ==> OnScroll(s, e, top, bottom) == ChangeZoom(s, 1.1)
    ensures CtrlPressed(e) && !WheelUp(e) && WheelDown(e) ==>
              OnScroll(s, e, top, bottom) == ChangeZoom(s, 0.9)
    ensures !CtrlPressed(e) && WheelUp(e) ==>
              OnScroll(s, e, top, bottom).canvas ==
                s.canvas + [ScrollUnits(-1)] +
                if top <= 0.0 && s.currentPage > 0 then [Draw(s.currentPage - 1, s.zoom), MoveToTop] else []
    ensures !CtrlPressed(e) && !WheelUp(e) && WheelDown(e) ==>
              OnScroll(s, e, top, bottom).canvas ==
                s.canvas + [ScrollUnits(1)] +
                if bottom >= 1.0 && s.currentPage < LastPage(s) then [Draw(s.currentPage + 1, s.zoom), MoveToTop] else []
  {
  }

  /** With no document open the wheel does nothing at all. */
  lemma ScrollClosed(s: ViewState, e: WheelEvent, top: real, bottom: real)
    requires !IsOpen(s.doc)
    ensures OnScroll(s, e, top, bottom) == s
  {
  }
}
