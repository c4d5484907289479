# PDF viewer page-view controller, in Dafny

This project models the page-view controller of the PDF_Viewer desktop
application: the state that the `PDFViewer` class keeps (the open document,
the current page index, the zoom factor and, in one copy, the previous
search query and the maximize/restore toggle) and the guarded transitions its
button, key and mouse-wheel callbacks perform. The repository has two copies
of the controller, `view_pdf_robson.py` and `visualizador_PDF.py`. Both are
modelled, and their differences are proved as lemmas.

The PDF engine (PyMuPDF, imported as `fitz`) is modelled abstractly in module
`Engine`:
- A document is a sequence of pages, each with a width, a height and a list
  of highlight annotations.
- `page.search_for(query)` is a function `(page index, query) -> rectangles`
  that the caller supplies.
- `page.add_highlight_annot(rect)` appends one highlight to that page.
- Effects outside the controller are recorded in logs: canvas operations
  (`Draw(page, zoom)`, `MoveToTop` for `yview_moveto(0)`, `ScrollUnits(n)`
  for `yview_scroll`), the information boxes shown, and the `doc.save`
  calls together with the document written.

Python's `if self.doc:` is modelled by `Engine.IsOpen`. A `fitz.Document`
defines `__len__` and no `__bool__`, so a document with zero pages counts as
not open, just like `None`. Every guarded callback then does nothing.

Each source file has two modules:
- A pure state machine (`RobsonModel`, `VisualizadorModel`). It has a
  `ViewState` datatype, one function per callback, and the lemmas.
- A `PDFViewer` class (`Robson`, `Visualizador`). Its fields are the
  source's instance fields the controller uses, plus logs of the effects on
  the canvas, the message boxes and the saves; `Robson` also holds the
  window geometry. Its methods update them in place. Each method's
  postcondition says that the object's new `State()` is the model function
  applied to the old state. `SearchText` keeps the source's loop
  over the search results, adding one annotation per iteration.

Module `Variants` maps a `view_pdf_robson.py` state to a `visualizador_PDF.py`
state by forgetting what only the former has. It proves that every shared
callback commutes with that map. The one exception is a search from an empty
entry, where only `view_pdf_robson.py` falls back to the previous query.

Inputs that come from the user or the windowing system are parameters:
- the path returned by each file dialog (`""` means cancelled);
- what `fitz.open(path)` yields (`None` means it raised);
- the search entry's text;
- `winfo_height()`;
- the screen size;
- the wheel event;
- the `yview()` fractions reported after a scroll step.

Notes on the code's behaviour:
- `open_pdf` keeps `last_search`: it is not cleared when a new document is
  opened.
- `change_zoom` accepts any factor; nothing rejects a zoom of 0 or less.
- `fit_height` does not guard the division. A page of height 0 raises
  ZeroDivisionError before any field is assigned, so the state stays as it
  was (`RobsonModel.FitHeight`).
- In `view_pdf_robson.py`, a search with no results still stores the query
  as `last_search` and sets the occurrence label to 0.

## Model

| member | source | states |
|---|---|---|
| Engine.AddHighlightAnnot | view_pdf_robson.py:158 | adding a highlight appends exactly one annotation to that page; no other page and no page size changes |
| Engine.HighlightAll | view_pdf_robson.py:157-158 | the loop over the results leaves the page's annotations equal to the old ones followed by one highlight per rectangle, in order; every other page is unchanged |
| Engine.HighlightAllCount | view_pdf_robson.py:157-160 | the page gains exactly as many annotations as there are results; no results leaves the document unchanged |
| RobsonModel.Init | view_pdf_robson.py:66-71 | the initial state has no document, page 0, zoom 2, an empty last query and the window not maximized |
| RobsonModel.ShowPage | view_pdf_robson.py:109-118 | with a document open, it records a draw of the current page at the current zoom and then a move of the view to the top; with no document it does nothing; it changes nothing else |
| RobsonModel.OpenPdf | view_pdf_robson.py:101-107 | opening keeps the page index within the document and changes only the document, the file path, the page index and the canvas; a confirmed open records a draw of page 0 and a move to the top when the new document has pages |
| RobsonModel.PrevPage | view_pdf_robson.py:120-123 | it keeps the page index within the document and never increases it; only the page index and the canvas change, and a move back records a draw of the new page and a move to the top |
| RobsonModel.NextPage | view_pdf_robson.py:125-128 | it keeps the page index within the document and never decreases it; only the page index and the canvas change, and a move on records a draw of the new page and a move to the top |
| RobsonModel.ChangeZoom | view_pdf_robson.py:130-133 | only the zoom and the canvas change; with a document open, the zoom becomes the old zoom times the factor and the page is redrawn at that zoom and moved to the top; with no document the state is unchanged |
| RobsonModel.FitHeight | view_pdf_robson.py:135-141 | only the zoom and the canvas change; with a page of non-zero height (`CurrentHeight`, the `page.rect.height` of lines 137-138), the new zoom times the page height equals the window height and the page is redrawn at that zoom; with no document, or a page of height 0 (the division raises), the state is unchanged |
| RobsonModel.Query | view_pdf_robson.py:145-146 | the query is empty exactly when both the entry and the last query are empty; a non-empty entry is used as it is, and an empty one falls back to the last query |
| RobsonModel.SearchText | view_pdf_robson.py:143-161 | a search keeps the page index valid and changes only the document, the last query, the occurrence label, the canvas and the notices; with no document it changes nothing |
| RobsonModel.SavePdf | view_pdf_robson.py:163-169 | saving changes only the saves and the notices, and records at most one save |
| RobsonModel.ToggleMaximize | view_pdf_robson.py:90-98 | the toggle flips `isMaximized` and changes only the window fields |
| RobsonModel.CtrlPressed | view_pdf_robson.py:173 | Ctrl is held exactly when bit 2 (mask 0x0004) of the event state is set |
| RobsonModel.OnScroll | view_pdf_robson.py:171-187 | the wheel keeps the page index valid and changes only the page index, the zoom and the canvas; Ctrl is `CtrlPressed` (the `state & 0x0004` test of line 173, proved equal to the bit mask), and the up and down steps are `WheelUp` and `WheelDown` (the tests of lines 175, 177, 180 and 184) |
| RobsonModel.PrevPageMoves | view_pdf_robson.py:120-123 | the page goes down by exactly 1 if and only if a document is open and the page is above 0; otherwise the whole state is unchanged, and vice versa |
| RobsonModel.NextPageMoves | view_pdf_robson.py:125-128 | the page goes up by exactly 1 if and only if the page is below the last one; otherwise the whole state is unchanged, and vice versa |
| RobsonModel.NextPagesAtLast | view_pdf_robson.py:125-128 | at the last page, any number of further next-page presses changes nothing |
| RobsonModel.NextPagesClamp | view_pdf_robson.py:125-128 | k next-page presses reach page min(current + k, last page), keep the document and zoom, and keep the index in range |
| RobsonModel.OpenThenNextPages | view_pdf_robson.py:101-128 | after opening an n-page document, n - 1 or more next-page presses end on the last page |
| RobsonModel.OpenPdfEffect | view_pdf_robson.py:101-107 | a non-empty path whose file opens sets the document, records the path, resets the page to 0 and keeps zoom and last query; an empty path or a failed open changes nothing |
| RobsonModel.ChangeZoomComposes | view_pdf_robson.py:130-133 | zooming by a then by b gives the same zoom, page and document as zooming once by a * b |
| RobsonModel.ChangeZoomClosed | view_pdf_robson.py:130-131 | with no document open, zooming changes nothing |
| RobsonModel.FitHeightIgnoresZoom | view_pdf_robson.py:135-141 | the fitted zoom does not depend on the previous zoom, and the current page is drawn at zoom window height / page height |
| RobsonModel.SearchQuery | view_pdf_robson.py:143-147 | an empty entry with no previous query is a no-op; otherwise the query, falling back to the previous one, becomes the last query |
| RobsonModel.SearchHighlights | view_pdf_robson.py:149-160 | only the current page is searched; with results the document becomes the old one with one highlight per result added to that page in order (page sizes and other pages kept), the label shows the number of results, the page is redrawn and no notice is shown; with no results the document and canvas are unchanged and a "not found" notice is shown |
| RobsonModel.SavePdfEffect | view_pdf_robson.py:163-169 | a save happens if and only if a document is open and a path was chosen; it writes the current document, annotations included, and shows exactly one "saved" notice naming the path; otherwise no notice is shown; page, zoom and document are unchanged; earlier save records are kept as they were |
| RobsonModel.ToggleTwiceRestores | view_pdf_robson.py:90-98 | maximizing saves the current geometry and sets the full-screen geometry; toggling a second time restores the saved geometry and changes nothing else |
| RobsonModel.ScrollWithCtrlZooms | view_pdf_robson.py:171-179 | with Ctrl held, the wheel never changes the page; it multiplies the zoom by 1.1 for up and by 0.9 for down, and up takes precedence |
| RobsonModel.ScrollWithoutCtrlPages | view_pdf_robson.py:180-187 | without Ctrl, the zoom never changes; up turns back one page only when the top fraction is at most 0, down turns forward one page only when the bottom fraction is at least 1; a wheel event that is neither up nor down changes nothing |
| RobsonModel.ScrollEffect | view_pdf_robson.py:174-187 | with a document open, a Ctrl wheel step is exactly a zoom step by 1.1 (up) or 0.9 (down); without Ctrl an up step records a scroll of -1 unit and, at the top of a page other than the first, the redraw of the previous page; a down step records a scroll of +1 unit and, at the bottom of a page other than the last, the redraw of the next page |
| RobsonModel.ScrollClosed | view_pdf_robson.py:171-172 | with no document open, the wheel does nothing |
| Robson.PDFViewer.constructor | view_pdf_robson.py:66-71 | the new viewer's state is the initial state |
| Robson.PDFViewer.ToggleMaximize | view_pdf_robson.py:90-98 | the object's new state is RobsonModel.ToggleMaximize of the old one |
| Robson.PDFViewer.OpenPdf | view_pdf_robson.py:101-107 | the object's new state is RobsonModel.OpenPdf of the old one, and the page invariant holds |
| Robson.PDFViewer.ShowPage | view_pdf_robson.py:109-118 | the object's new state is RobsonModel.ShowPage of the old one |
| Robson.PDFViewer.PrevPage | view_pdf_robson.py:120-123 | the object's new state is RobsonModel.PrevPage of the old one |
| Robson.PDFViewer.NextPage | view_pdf_robson.py:125-128 | the object's new state is RobsonModel.NextPage of the old one |
| Robson.PDFViewer.ChangeZoom | view_pdf_robson.py:130-133 | the object's new state is RobsonModel.ChangeZoom of the old one |
| Robson.PDFViewer.FitHeight | view_pdf_robson.py:135-141 | the object's new state is RobsonModel.FitHeight of the old one |
| Robson.PDFViewer.SearchText | view_pdf_robson.py:143-161 | after the in-place loop over the results, the object's new state is RobsonModel.SearchText of the old one |
| Robson.PDFViewer.SavePdf | view_pdf_robson.py:163-169 | the object's new state is RobsonModel.SavePdf of the old one |
| Robson.PDFViewer.OnScroll | view_pdf_robson.py:171-187 | the object's new state is RobsonModel.OnScroll of the old one |
| VisualizadorModel.Init | visualizador_PDF.py:45-47 | the initial state has no document, page 0 and zoom 2 |
| VisualizadorModel.ShowPage | visualizador_PDF.py:57-70 | with a document open, it records a draw of the current page at the current zoom, with no move to the top; with no document it does nothing; it changes nothing else |
| VisualizadorModel.OpenPdf | visualizador_PDF.py:49-55 | opening keeps the page index within the document and changes only the document, the file path, the page index and the canvas; a confirmed open records a draw of page 0 when the new document has pages |
| VisualizadorModel.PrevPage | visualizador_PDF.py:72-75 | it keeps the page index within the document and never increases it; only the page index and the canvas change, and a move back records a draw of the new page |
| VisualizadorModel.NextPage | visualizador_PDF.py:77-80 | it keeps the page index within the document and never decreases it; only the page index and the canvas change, and a move on records a draw of the new page |
| VisualizadorModel.ChangeZoom | visualizador_PDF.py:82-85 | only the zoom and the canvas change; with a document open, the zoom becomes the old zoom times the factor and the page is redrawn at that zoom; with no document the state is unchanged |
| VisualizadorModel.SearchText | visualizador_PDF.py:87-103 | a search keeps the page index valid and changes only the document, the canvas and the notices; with no document it changes nothing |
| VisualizadorModel.SavePdf | visualizador_PDF.py:105-111 | saving changes only the saves and the notices, and records at most one save |
| VisualizadorModel.PrevPageMoves | visualizador_PDF.py:72-75 | the page goes down by exactly 1 if and only if a document is open and the page is above 0; otherwise the whole state is unchanged |
| VisualizadorModel.NextPageMoves | visualizador_PDF.py:77-80 | the page goes up by exactly 1 if and only if the page is below the last one; otherwise the whole state is unchanged |
| VisualizadorModel.NextPagesClamp | visualizador_PDF.py:77-80 | k next-page presses reach page min(current + k, last page), so the index stays within the document's pages |
| VisualizadorModel.OpenPdfEffect | visualizador_PDF.py:49-55 | a non-empty path whose file opens resets the page to 0, records the path and keeps the zoom; a cancelled dialog or a failed open changes nothing |
| VisualizadorModel.ChangeZoomComposes | visualizador_PDF.py:82-85 | zooming by a then by b gives the same zoom, page and document as zooming once by a * b |
| VisualizadorModel.ChangeZoomClosed | visualizador_PDF.py:82-83 | with no document open, zooming changes nothing |
| VisualizadorModel.SearchEmptyEntry | visualizador_PDF.py:87-90 | an empty entry is a no-op whatever was searched before; no query is stored |
| VisualizadorModel.SearchHighlights | visualizador_PDF.py:92-103 | with results the document becomes the old one with one highlight per result added to the current page (page sizes and other pages kept), the page is redrawn and no notice is shown; with no results, the only change is the "not found" notice |
| VisualizadorModel.SavePdfEffect | visualizador_PDF.py:105-111 | a save happens if and only if a document is open and a path was chosen, and then exactly one "saved" notice naming the path is shown; it never changes page, zoom or document, and earlier save records are kept as they were |
| Visualizador.PDFViewer.constructor | visualizador_PDF.py:45-47 | the new viewer's state is the initial state |
| Visualizador.PDFViewer.OpenPdf | visualizador_PDF.py:49-55 | the object's new state is VisualizadorModel.OpenPdf of the old one |
| Visualizador.PDFViewer.ShowPage | visualizador_PDF.py:57-70 | the object's new state is VisualizadorModel.ShowPage of the old one |
| Visualizador.PDFViewer.PrevPage | visualizador_PDF.py:72-75 | the object's new state is VisualizadorModel.PrevPage of the old one |
| Visualizador.PDFViewer.NextPage | visualizador_PDF.py:77-80 | the object's new state is VisualizadorModel.NextPage of the old one |
| Visualizador.PDFViewer.ChangeZoom | visualizador_PDF.py:82-85 | the object's new state is VisualizadorModel.ChangeZoom of the old one |
| Visualizador.PDFViewer.SearchText | visualizador_PDF.py:87-103 | after the in-place loop over the results, the object's new state is VisualizadorModel.SearchText of the old one |
| Visualizador.PDFViewer.SavePdf | visualizador_PDF.py:105-111 | the object's new state is VisualizadorModel.SavePdf of the old one |
| Variants.WithoutMoves | view_pdf_robson.py:118 | an operation is in the result exactly when it is in the log and is not a move to the top; the result is no longer than the log |
| Variants.WithoutMovesAppend | view_pdf_robson.py:118 | removing the moves to the top distributes over concatenation of canvas logs |
| Variants.Forget | view_pdf_robson.py:66-71 | the projection keeps document, page and zoom, and preserves the page invariant in both directions |
| Variants.InitAgrees | visualizador_PDF.py:45-47 | both copies start in corresponding states |
| Variants.ShowPageAgrees | view_pdf_robson.py:109-118 | drawing a page commutes with the projection; only view_pdf_robson.py ends with a move to the top, while visualizador_PDF.py ends with the draw |
| Variants.OpenPdfAgrees | view_pdf_robson.py:101-107 | opening behaves the same in both copies |
| Variants.PrevPageAgrees | view_pdf_robson.py:120-123 | the previous-page action behaves the same in both copies |
| Variants.NextPageAgrees | view_pdf_robson.py:125-128 | the next-page action behaves the same in both copies |
| Variants.ChangeZoomAgrees | view_pdf_robson.py:130-133 | zooming behaves the same in both copies |
| Variants.SavePdfAgrees | view_pdf_robson.py:163-169 | saving behaves the same in both copies |
| Variants.SearchAgreesWithEntry | view_pdf_robson.py:143-161 | with a non-empty entry, both copies search alike |
| Variants.SearchFallbackDiffers | view_pdf_robson.py:145 | with an empty entry after a search that found results on this page, view_pdf_robson.py adds highlights while visualizador_PDF.py changes nothing |

## Left out

- Tkinter widget construction, layout, key bindings and the `mainloop`
  start-up. These are UI wiring. The buttons and keys for the modelled
  actions call the modelled methods with fixed arguments, such as
  `change_zoom(1.2)` and `change_zoom(0.8)`.
- The exit button and the `<Escape>` key, which both call `root.destroy()`
  and end the application; the model has no terminated state.
- File dialogs and message boxes. The dialog results are method parameters;
  the message boxes are recorded as notices.
- PDF parsing, rasterisation by `get_pixmap`, the search algorithm inside
  `search_for`, and writing the file in `save`. These are foreign library
  calls. A render is recorded as `Draw(page, zoom)` and a save as the
  document value written.
- The PIL/ImageTk image conversion and the canvas scroll region. Only the
  draw and the scroll moves are recorded.
- The canvas's real scroll geometry and the window's size in pixels. These
  are taken as inputs.
- Moves and resizes of the window by the user. The model's `window` changes
  only through `toggle_maximize`. The initial `last_geometry` is taken as the
  geometry set at start-up.
- The shared, mutable document handle: the document is a value that the
  methods reassign. A save records a copy, so annotations added after a
  save do not reach an earlier save record.
- Floating-point rounding of the zoom, which is an exact `real` here.
- Exceptions other than a failed `fitz.open` and the division by zero in
  `fit_height`, such as an unwritable save path. Those would surface only
  as a Tk callback error.
- The `hasattr(event, "delta")` test becomes an optional `delta` field. Tk's
  `num` value `"??"` for `<MouseWheel>` events becomes any number other than
  4 or 5.
- CtrlPressed: the contract ties the predicate to the bit mask only for event
  states below 2^32, which covers every modifier state Tk reports; the
  predicate itself tests bit 2 of any state.
