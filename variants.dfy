/** How the two copies of the controller relate. Forgetting what only
    view_pdf_robson.py has (the previous query, the occurrence label, the
    window toggle and the moves of the view to the top) maps each of its
    states to a state of visualizador_PDF.py, and every shared callback
    commutes with that map, except a search from an empty entry, where the
    fallback to the previous query makes the two differ. */
module Variants {
  import opened Engine
  import R = RobsonModel
  import V = VisualizadorModel

  /** The canvas effects with every move to the top removed. */
  function WithoutMoves(ops: seq<CanvasOp>): (r: seq<CanvasOp>)
    ensures |r| <= |ops|
    ensures forall op :: op in r <==> op in ops && op != MoveToTop
  {
    if ops == [] then []
    else
      var last := ops[|ops| - 1];
      assert ops == ops[..|ops| - 1] + [last];
      WithoutMoves(ops[..|ops| - 1]) + (if last == MoveToTop then [] else [last])
  }

  lemma {:induction false} WithoutMovesAppend(a: seq<CanvasOp>, b: seq<CanvasOp>)
    ensures WithoutMoves(a + b) == WithoutMoves(a) + WithoutMoves(b)
    decreases |b|
  {
    if b == [] {
      assert a + b == a;
    } else {
      var init, last := b[..|b| - 1], b[|b| - 1];
      assert (a + b)[..|a + b| - 1] == a + init;
      assert (a + b)[|a + b| - 1] == last;
      WithoutMovesAppend(a, init);
      var tail := if last == MoveToTop then [] else [last];
      calc {
        WithoutMoves(a + b);
        WithoutMoves(a + init) + tail;
        WithoutMoves(a) + WithoutMoves(init) + tail;
        WithoutMoves(a) + (WithoutMoves(init) + tail);
        WithoutMoves(a) + WithoutMoves(b);
      }
    }
  }

  /** The state of visualizador_PDF.py that a state of view_pdf_robson.py
      corresponds to. */
  function Forget(s: R.ViewState): (t: V.ViewState)
    ensures t.doc == s.doc && t.currentPage == s.currentPage && t.zoom == s.zoom
    ensures R.Valid(s) <==> V.Valid(t)
  {
    V.ViewState(s.doc, s.filePath, s.currentPage, s.zoom, WithoutMoves(s.canvas), s.notices, s.saves)
  }

  /** Both copies start in corresponding states. */
  lemma InitAgrees()
    ensures Forget(R.Init()) == V.Init()
  {
  }

  /** Drawing a page is the same in both copies but for the move to the
      top, which only view_pdf_robson.py makes. */
  lemma ShowPageAgrees(s: R.ViewState)
    ensures Forget(R.ShowPage(s)) == V.ShowPage(Forget(s))
    ensures IsOpen(s.doc) ==>
              R.ShowPage(s).canvas[|R.ShowPage(s).canvas| - 1] == MoveToTop &&
              V.ShowPage(Forget(s)).canvas[|V.ShowPage(Forget(s)).canvas| - 1] == Draw(s.currentPage, s.zoom)
  {
    if IsOpen(s.doc) {
      WithoutMovesAppend(s.canvas, [Draw(s.currentPage, s.zoom), MoveToTop]);
      assert WithoutMoves([Draw(s.currentPage, s.zoom), MoveToTop]) == [Draw(s.currentPage, s.zoom)] by {
        assert [Draw(s.currentPage, s.zoom), MoveToTop][..1] == [Draw(s.currentPage, s.zoom)];
        assert [Draw(s.currentPage, s.zoom)][..0] == [];
      }
    }
  }

  lemma OpenPdfAgrees(s: R.ViewState, path: string, loaded: Option<Document>)
    ensures Forget(R.OpenPdf(s, path, loaded)) == V.OpenPdf(Forget(s), path, loaded)
  {
    if path != "" && loaded.Some? {
      ShowPageAgrees(s.(doc := loaded, filePath := Some(path), currentPage := 0));
    }
  }

  lemma PrevPageAgrees(s: R.ViewState)
    ensures Forget(R.PrevPage(s)) == V.PrevPage(Forget(s))
  {
    if IsOpen(s.doc) && s.currentPage > 0 {
      ShowPageAgrees(s.(currentPage := s.currentPage - 1));
    }
  }

  lemma NextPageAgrees(s: R.ViewState)
    ensures Forget(R.NextPage(s)) == V.NextPage(Forget(s))
  {
    ShowPageAgrees(s.(currentPage := s.currentPage + 1));
  }

  lemma ChangeZoomAgrees(s: R.ViewState, factor: real)
    ensures Forget(R.ChangeZoom(s, factor)) == V.ChangeZoom(Forget(s), factor)
  {
    if IsOpen(s.doc) {
      var zoomed := s.(zoom := s.zoom * factor);
      ShowPageAgrees(zoomed);
      assert Forget(zoomed) == Forget(s).(zoom := Forget(s).zoom * factor);
    }
  }

  lemma SavePdfAgrees(s: R.ViewState, savePath: string)
    ensures Forget(R.SavePdf(s, savePath)) == V.SavePdf(Forget(s), savePath)
  {
  }

  /** With text in the entry both copies search alike. */
  lemma SearchAgreesWithEntry(s: R.ViewState, entry: string, searchFor: SearchFn)
    requires R.Valid(s) && entry != ""
    ensures Forget(R.SearchText(s, entry, searchFor)) == V.SearchText(Forget(s), entry, searchFor)
  {
    if IsOpen(s.doc) && searchFor(s.currentPage, entry) != [] {
      ShowPageAgrees(s.(lastSearch := entry,
                        doc := Some(HighlightAll(s.doc.value, s.currentPage, searchFor(s.currentPage, entry))),
                        resultsLabel := |searchFor(s.currentPage, entry)|));
    }
  }

  /** With an empty entry after a search that found something on this page,
      view_pdf_robson.py repeats the search and adds highlights, while
      visualizador_PDF.py does nothing. */
  lemma SearchFallbackDiffers(s: R.ViewState, searchFor: SearchFn)
    requires R.Valid(s) && IsOpen(s.doc) && s.lastSearch != ""
    requires searchFor(s.currentPage, s.lastSearch) != []
    ensures V.SearchText(Forget(s), "", searchFor) == Forget(s)
    ensures |R.SearchText(s, "", searchFor).doc.value.pages[s.currentPage].annots| >
            |s.doc.value.pages[s.currentPage].annots|
  {
    R.SearchHighlights(s, "", searchFor);
  }
}
