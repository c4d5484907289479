/** The `PDFViewer` class of view_pdf_robson.py: its fields and the control
    logic of its callbacks, each method proved to perform the transition of
    RobsonModel on the object's state. */
module Robson {
  import opened Engine
  import M = RobsonModel

  class PDFViewer {
    var doc: Option<Document>
    var filePath: Option<string>
    var currentPage: nat
    var zoom: real
    var lastSearch: string
    /** The count shown by the "Ocorrências" label. */
    var resultsLabel: nat
    var isMaximized: bool
    var lastGeometry: M.Geometry
    /** The window's geometry, as `root.geometry()` reports it. */
    var window: M.Geometry
    var canvas: seq<CanvasOp>
    var notices: seq<Notice>
    var saves: seq<SaveRecord>

    function State(): M.ViewState
      reads this
    {
      M.ViewState(doc, filePath, currentPage, zoom, lastSearch, resultsLabel,
                  isMaximized, lastGeometry, window, canvas, notices, saves)
    }

    predicate Valid()
      reads this
    {
      M.Valid(State())
    }

    /** `__init__`, without the widgets. */
    constructor ()
      ensures Valid() && State() == M.Init()
    {
      isMaximized := false;
      window := M.StartGeometry;
      lastGeometry := window;
      doc := None;
      currentPage := 0;
      zoom := M.StartZoom;
      filePath := None;
      lastSearch := "";
      resultsLabel := 0;
      canvas, notices, saves := [], [], [];
    }

    method ToggleMaximize(screenWidth: int, screenHeight: int)
      requires Valid()
      modifies this
      ensures Valid() && State() == M.ToggleMaximize(old(State()), screenWidth, screenHeight)
    {
      if !isMaximized {
        lastGeometry := window;
        window := M.Geometry(screenWidth, screenHeight, 0, 0);
        isMaximized := true;
      } else {
        window := lastGeometry;
        isMaximized := false;
      }
    }

    /** `open_pdf`: `path` is what the file dialog returned, `loaded` what
        `fitz.open(path)` yields (`None` when it raises). */
    method OpenPdf(path: string, loaded: Option<Document>)
      requires Valid()
      modifies this
      ensures Valid() && State() == M.OpenPdf(old(State()), path, loaded)
    {
      if path != "" {
        match loaded
        case None =>
          return;
        case Some(d) =>
          doc := Some(d);
          filePath := Some(path);
          currentPage := 0;
          ShowPage();
      }
    }

    method ShowPage()
      modifies this
      ensures State() == M.ShowPage(old(State()))
    {
      if !IsOpen(doc) { return; }
      canvas := canvas + [Draw(currentPage, zoom)];
      canvas := canvas + [MoveToTop];
    }

    method PrevPage()
      requires Valid()
      modifies this
      ensures Valid() && State() == M.PrevPage(old(State()))
    {
      if IsOpen(doc) && currentPage > 0 {
        currentPage := currentPage - 1;
        ShowPage();
      }
    }

    method NextPage()
      requires Valid()
      modifies this
      ensures Valid() && State() == M.NextPage(old(State()))
    {
      if IsOpen(doc) && currentPage < PageCount(doc.value) - 1 {
        currentPage := currentPage + 1;
        ShowPage();
      }
    }

    method ChangeZoom(factor: real)
      requires Valid()
      modifies this
      ensures Valid() && State() == M.ChangeZoom(old(State()), factor)
    {
      ghost var before := State();
      if IsOpen(doc) {
        M.ChangeZoomOpen(before, factor);
        zoom := zoom * factor;
        assert State() == before.(zoom := before.zoom * factor);
        ShowPage();
      }
    }

    /** `fit_height`: `windowHeight` is what `root.winfo_height()` reports. */
    method FitHeight(windowHeight: int)
      requires Valid()
      modifies this
      ensures Valid() && State() == M.FitHeight(old(State()), windowHeight)
    {
      if !IsOpen(doc) { return; }
      var page := doc.value.pages[currentPage];
      if page.height == 0.0 { return; }
      zoom := windowHeight as real / page.height;
      ShowPage();
    }

    /** `search_text`: `entry` is the text of the search entry, `searchFor`
        the engine's per-page search. */
    method SearchText(entry: string, searchFor: SearchFn)
      requires Valid()
      modifies this
      ensures Valid() && State() == M.SearchText(old(State()), entry, searchFor)
    {
      if !IsOpen(doc) { return; }
      var query := M.Query(entry, lastSearch);
      if query == "" { return; }
      lastSearch := query;

      var results := searchFor(currentPage, query);
      if results == [] {
        notices := notices + [NotFound(query)];
        resultsLabel := 0;
        return;
      }

      ghost var before := State();
      ghost var original := doc.value;
      for i := 0 to |results|
        invariant State() == before.(doc := doc)
        invariant doc == Some(HighlightAll(original, currentPage, results[..i]))
      {
        assert results[..i + 1][..i] == results[..i];
        doc := Some(AddHighlightAnnot(doc.value, currentPage, results[i]));
      }
      assert results[..|results|] == results;

      resultsLabel := |results|;
      ShowPage();
    }

    /** `save_pdf`: `savePath` is what the save dialog returned. */
    method SavePdf(savePath: string)
      requires Valid()
      modifies this
      ensures Valid() && State() == M.SavePdf(old(State()), savePath)
    {
      if IsOpen(doc) {
        if savePath != "" {
          saves := saves + [SaveRecord(savePath, doc.value)];
          notices := notices + [Saved(savePath)];
        }
      }
    }

    /** `on_scroll`: `top` and `bottom` are what `canvas.yview()` reports
        after the scroll step. */
    method OnScroll(e: M.WheelEvent, top: real, bottom: real)
      requires Valid()
      modifies this
      ensures Valid() && State() == M.OnScroll(old(State()), e, top, bottom)
    {
      if !IsOpen(doc) { return; }
      if M.CtrlPressed(e) {
        if M.WheelUp(e) {
          ChangeZoom(1.1);
        } else if M.WheelDown(e) {
          ChangeZoom(0.9);
        }
        return;
      }
      if M.WheelUp(e) {
        canvas := canvas + [ScrollUnits(-1)];
        if top <= 0.0 {
          PrevPage();
        }
      } else if M.WheelDown(e) {
        canvas := canvas + [ScrollUnits(1)];
        if bottom >= 1.0 {
          NextPage();
        }
      }
    }
  }
}
