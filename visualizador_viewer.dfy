/** The `PDFViewer` class of visualizador_PDF.py: its fields and the control
    logic of its callbacks, each method proved to perform the transition of
    VisualizadorModel on the object's state. */
module Visualizador {
  import opened Engine
  import M = VisualizadorModel

  class PDFViewer {
    var doc: Option<Document>
    var filePath: Option<string>
    var currentPage: nat
    var zoom: real
    var canvas: seq<CanvasOp>
    var notices: seq<Notice>
    var saves: seq<SaveRecord>

    function State(): M.ViewState
      reads this
    {
      M.ViewState(doc, filePath, currentPage, zoom, canvas, notices, saves)
    }

    predicate Valid()
      reads this
    {
      M.Valid(State())
    }

    /** `__init__`, without the widgets. */
    constructor ()
      ensures Valid() && State() == M.Init()
    {
      doc := None;
      filePath := None;
      currentPage := 0;
      zoom := M.StartZoom;
      canvas, notices, saves := [], [], [];
    }

    /** `open_pdf`: `path` is what the file dialog returned, `loaded` what
        `fitz.open(path)` yields (`None` when it raises). */
    method OpenPdf(path: string, loaded: Option<Document>)
      requires Valid()
      modifies this
      ensures Valid() && State() == M.OpenPdf(old(State()), path, loaded)
    {
      if path != "" {
        match loaded
        case None =>
          return;
        case Some(d) =>
          doc := Some(d);
          filePath := Some(path);
          currentPage := 0;
          ShowPage();
      }
    }

    method ShowPage()
      modifies this
      ensures State() == M.ShowPage(old(State()))
    {
      if !IsOpen(doc) { return; }
      canvas := canvas + [Draw(currentPage, zoom)];
    }

    method PrevPage()
      requires Valid()
      modifies this
      ensures Valid() && State() == M.PrevPage(old(State()))
    {
      if IsOpen(doc) && currentPage > 0 {
        currentPage := currentPage - 1;
        ShowPage();
      }
    }

    method NextPage()
      requires Valid()
      modifies this
      ensures Valid() && State() == M.NextPage(old(State()))
    {
      if IsOpen(doc) && currentPage < PageCount(doc.value) - 1 {
        currentPage := currentPage + 1;
        ShowPage();
      }
    }

    method ChangeZoom(factor: real)
      requires Valid()
      modifies this
      ensures Valid() && State() == M.ChangeZoom(old(State()), factor)
    {
      ghost var before := State();
      if IsOpen(doc) {
        M.ChangeZoomOpen(before, factor);
        zoom := zoom * factor;
        assert State() == before.(zoom := before.zoom * factor);
        ShowPage();
      }
    }

    /** `search_text`: `entry` is the text of the search entry, `searchFor`
        the engine's per-page search. */
    method SearchText(entry: string, searchFor: SearchFn)
      requires Valid()
      modifies this
      ensures Valid() && State() == M.SearchText(old(State()), entry, searchFor)
    {
      if !IsOpen(doc) { return; }
      var query := entry;
      if query == "" { return; }

      var results := searchFor(currentPage, query);
      if results == [] {
        notices := notices + [NotFound(query)];
        return;
      }

      ghost var before := State();
      ghost var original := doc.value;
      for i := 0 to |results|
        invariant State() == before.(doc := doc)
        invariant doc == Some(HighlightAll(original, currentPage, results[..i]))
      {
        assert results[..i + 1][..i] == results[..i];
        doc := Some(AddHighlightAnnot(doc.value, currentPage, results[i]));
      }
      assert results[..|results|] == results;

      ShowPage();
    }

    /** `save_pdf`: `savePath` is what the save dialog returned. */
    method SavePdf(savePath: string)
      requires Valid()
      modifies this
      ensures Valid() && State() == M.SavePdf(old(State()), savePath)
    {
      if IsOpen(doc) {
        if savePath != "" {
          saves := saves + [SaveRecord(savePath, doc.value)];
          notices := notices + [Saved(savePath)];
        }
      }
    }
  }
}
