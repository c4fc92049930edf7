/** The PDF pager (src/components/previews/PdfPreview.tsx): a page counter
    kept within the document and a zoom factor kept within [0.5, 3] in steps
    of 0.25. The zoom is held as a count of quarters, `scale = quarters / 4`,
    which is exact for every value the component can reach. Rendering the
    canvas is not modelled. */
module Pdf {
  import opened Common

  const MinQuarters: int := 2     // scale 0.5
  const MaxQuarters: int := 12    // scale 3
  const InitialQuarters: int := 6 // scale 1.5

  /** `Math.round(scale * 100)`: a quarter is exactly 25 percent. */
  function ZoomPercent(quarters: int): (percent: int)
    ensures MinQuarters <= quarters <= MaxQuarters ==> 50 <= percent <= 300
    ensures quarters == InitialQuarters ==> percent == 150
  {
    25 * quarters
  }

  /** One zoom click: `min(scale + 0.25, 3)` in, `max(scale - 0.25, 0.5)`
      out. */
  function ZoomStep(quarters: int, zoomIn: bool): (q: int)
    ensures MinQuarters <= quarters <= MaxQuarters ==> MinQuarters <= q <= MaxQuarters
    ensures MinQuarters <= quarters <= MaxQuarters ==> 0 <= (if zoomIn then q - quarters else quarters - q) <= 1
  {
    if zoomIn then (if quarters + 1 < MaxQuarters then quarters + 1 else MaxQuarters)
    else (if quarters - 1 > MinQuarters then quarters - 1 else MinQuarters)
  }

  /** The zoom after a run of clicks (true for in) from the initial 1.5. */
  function ScaleAfter(clicks: seq<bool>): int
  {
    if |clicks| == 0 then InitialQuarters
    else ZoomStep(ScaleAfter(clicks[..|clicks| - 1]), clicks[|clicks| - 1])
  }

  /** However the zoom buttons are clicked, the scale stays a multiple of
      0.25 within [0.5, 3]. */
  lemma {:induction false} ScaleAlwaysInRange(clicks: seq<bool>)
    ensures MinQuarters <= ScaleAfter(clicks) <= MaxQuarters
  {
    if |clicks| > 0 {
      ScaleAlwaysInRange(clicks[..|clicks| - 1]);
    }
  }

  /** Every quarter step in [0.5, 3] is reached: zooming out k times from
      1.5 gives max(6 - k, 2) quarters, zooming in gives min(6 + k, 12). */
  lemma {:induction false} ZoomRuns(k: nat)
    ensures ScaleAfter(seq(k, _ => false)) == if 6 - k > MinQuarters then 6 - k else MinQuarters
    ensures ScaleAfter(seq(k, _ => true)) == if 6 + k < MaxQuarters then 6 + k else MaxQuarters
  {
    if k > 0 {
      ZoomRuns(k - 1);
      assert seq(k, _ => false)[..k - 1] == seq(k - 1, _ => false);
      assert seq(k, _ => true)[..k - 1] == seq(k - 1, _ => true);
    }
  }

  /** One page click: back unless on page 1, on unless on the last page. */
  function PageStep(page: int, numPages: nat, forward: bool): (p: int)
    ensures 1 <= page <= numPages ==> 1 <= p <= numPages
    ensures 1 <= page <= numPages ==> 0 <= (if forward then p - page else page - p) <= 1
  {
    if forward then (if page < numPages then page + 1 else page)
    else (if page > 1 then page - 1 else page)
  }

  /** The page after a run of clicks (true for next) from the first page
      that loading sets. */
  function PageAfter(clicks: seq<bool>, numPages: nat): int
  {
    if |clicks| == 0 then 1
    else PageStep(PageAfter(clicks[..|clicks| - 1], numPages), numPages, clicks[|clicks| - 1])
  }

  /** In a document with pages, any run of clicks after loading keeps the
      page within the document. */
  lemma {:induction false} PageAlwaysInRange(clicks: seq<bool>, numPages: nat)
    requires numPages >= 1
    ensures 1 <= PageAfter(clicks, numPages) <= numPages
  {
    if |clicks| > 0 {
      PageAlwaysInRange(clicks[..|clicks| - 1], numPages);
    }
  }

  class PdfPreview {
    var numPages: nat
    var currentPage: int
    var scaleQuarters: int
    var loading: bool
    var error: Option<string>

    /** Zoom within its bounds. */
    predicate ScaleInRange()
      reads this
    {
      MinQuarters <= scaleQuarters <= MaxQuarters
    }

    /** The page shown is a page of the document. */
    predicate PageInRange()
      reads this
    {
      1 <= currentPage <= numPages
    }

    constructor ()
      ensures numPages == 0 && currentPage == 1 && scaleQuarters == InitialQuarters
      ensures loading && error == None
      ensures ScaleInRange()
    {
      numPages := 0;
      currentPage := 1;
      scaleQuarters := InitialQuarters;
      loading := true;
      error := None;
    }

    /** The start of `loadPdf`. */
    method StartLoad()
      modifies this
      ensures loading && error == None
      ensures numPages == old(numPages) && currentPage == old(currentPage)
      ensures scaleQuarters == old(scaleQuarters)
    {
      loading := true;
      error := None;
    }

    /** The rest of `loadPdf`, given the page count of the parsed document
        or what was thrown: a document resets the view to its first page. */
    method FinishLoad(answer: Result<nat, Thrown>)
      modifies this
      ensures !loading && scaleQuarters == old(scaleQuarters)
      ensures answer.Ok? ==> numPages == answer.value && currentPage == 1 && error == old(error)
      ensures answer.Ok? && answer.value >= 1 ==> PageInRange()
      ensures answer.Err? ==>
        numPages == old(numPages) && currentPage == old(currentPage)
        && error == Some(MessageOr(answer.error, "Failed to load PDF"))
    {
      match answer {
        case Ok(pages) =>
          numPages := pages;
          currentPage := 1;
        case Err(thrown) =>
          error := Some(MessageOr(thrown, "Failed to load PDF"));
      }
      loading := false;
    }

    /** The "Previous" button is disabled on the first page. */
    predicate PrevDisabled()
      reads this
      ensures PageInRange() ==> (PrevDisabled() <==> PageStep(currentPage, numPages, false) == currentPage)
    {
      currentPage == 1
    }

    /** The "Next" button is disabled on the last page. */
    predicate NextDisabled()
      reads this
      ensures PageInRange() ==> (NextDisabled() <==> PageStep(currentPage, numPages, true) == currentPage)
    {
      currentPage == numPages
    }

    predicate ZoomOutDisabled()
      reads this
      ensures ScaleInRange() ==> (ZoomOutDisabled() <==> ZoomStep(scaleQuarters, false) == scaleQuarters)
    {
      scaleQuarters <= MinQuarters
    }

    predicate ZoomInDisabled()
      reads this
      ensures ScaleInRange() ==> (ZoomInDisabled() <==> ZoomStep(scaleQuarters, true) == scaleQuarters)
    {
      scaleQuarters >= MaxQuarters
    }

    /** `handlePrevPage`: one page back unless on the first page. Within the
        document it stays within the document, and it does nothing exactly
        when its button is disabled. */
    method PrevPage()
      modifies this
      ensures currentPage == PageStep(old(currentPage), numPages, false)
      ensures numPages == old(numPages) && scaleQuarters == old(scaleQuarters)
      ensures loading == old(loading) && error == old(error)
      ensures old(PageInRange()) ==> PageInRange()
      ensures old(PageInRange()) ==> (currentPage == old(currentPage) <==> old(PrevDisabled()))
    {
      if currentPage > 1 {
        currentPage := currentPage - 1;
      }
    }

    /** `handleNextPage`: one page on unless on the last page. Within the
        document it stays within the document, and it does nothing exactly
        when its button is disabled. */
    method NextPage()
      modifies this
      ensures currentPage == PageStep(old(currentPage), numPages, true)
      ensures numPages == old(numPages) && scaleQuarters == old(scaleQuarters)
      ensures loading == old(loading) && error == old(error)
      ensures old(PageInRange()) ==> PageInRange()
      ensures old(PageInRange()) ==> (currentPage == old(currentPage) <==> old(NextDisabled()))
    {
      if currentPage < numPages {
        currentPage := currentPage + 1;
      }
    }

    /** `handleZoomIn`: `min(scale + 0.25, 3)`. */
    method ZoomIn()
      modifies this
      ensures scaleQuarters == ZoomStep(old(scaleQuarters), true)
      ensures old(ScaleInRange()) ==> ScaleInRange()
      ensures old(ScaleInRange()) ==> (scaleQuarters == old(scaleQuarters) <==> old(ZoomInDisabled()))
      ensures numPages == old(numPages) && currentPage == old(currentPage)
      ensures loading == old(loading) && error == old(error)
    {
      scaleQuarters := if scaleQuarters + 1 < MaxQuarters then scaleQuarters + 1 else MaxQuarters;
    }

    /** `handleZoomOut`: `max(scale - 0.25, 0.5)`. */
    method ZoomOut()
      modifies this
      ensures scaleQuarters == ZoomStep(old(scaleQuarters), false)
      ensures old(ScaleInRange()) ==> ScaleInRange()
      ensures old(ScaleInRange()) ==> (scaleQuarters == old(scaleQuarters) <==> old(ZoomOutDisabled()))
      ensures numPages == old(numPages) && currentPage == old(currentPage)
      ensures loading == old(loading) && error == old(error)
    {
      scaleQuarters := if scaleQuarters - 1 > MinQuarters then scaleQuarters - 1 else MinQuarters;
    }
  }
}
