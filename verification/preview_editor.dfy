/**
 * The pointer-driven editor of the print preview
 * (src/components/PrintPreview.jsx): the array of page records the layout
 * builds, the active page, the view mode and the drag record, and the
 * handlers that change them.
 *
 * Page records are objects: the handlers copy the array but change the
 * records themselves in place, so every copy of the array sees the change.
 * `currentPage` and `pagesPerSheet` are the component's inputs and are passed
 * to the handlers that read them.
 */
module PreviewEditor {
  import opened Wrappers
  import opened PreviewLayout

  /** One placed page; the layout creates it, the handlers change it in place. */
  class Page {
    const pageNumber: int
    var x: real
    var y: real
    var width: real
    var height: real
    var rotation: int

    constructor (r: PageRec)
      ensures Rec() == r
    {
      pageNumber := r.pageNumber;
      x, y, width, height := r.x, r.y, r.width, r.height;
      rotation := r.rotation;
    }

    /** Moves and resizes the page to the position and size of `r`. */
    method SetBox(r: PageRec)
      modifies this
      ensures Rec() == old(Rec()).(x := r.x, y := r.y, width := r.width, height := r.height)
    {
      x, y, width, height := r.x, r.y, r.width, r.height;
    }

    /** The page's current fields as a value. */
    function Rec(): PageRec
      reads this
    {
      PageRec(pageNumber, x, y, width, height, rotation)
    }
  }

  /** The two views of the preview. */
  datatype ViewMode = EditorView | SequenceView

  /** `dragState`: whether a drag is on, what it drags, which page, and its anchor. */
  datatype DragState = DragState(isDragging: bool, kind: DragKind, target: int, start: Point)

  /** The state mouse-up and mouse-leave restore. */
  const Idle: DragState := DragState(false, NoDrag, -1, Point(0.0, 0.0))

  /** The values of the page objects, in array order. */
  function ViewOf(ps: seq<Page>): (view: seq<PageRec>)
    reads ps
    ensures |view| == |ps|
    ensures forall i :: 0 <= i < |ps| ==> view[i] == ps[i].Rec()
  {
    if ps == [] then [] else ViewOf(ps[..|ps| - 1]) + [ps[|ps| - 1].Rec()]
  }

  /**
   * The loop of `resetAndLayoutPages`: a new record per source page, numbered
   * from 1, unrotated, placed by the layout.
   */
  method BuildPages(sizes: seq<Size>, pagesPerSheet: int) returns (built: seq<Page>)
    requires forall k :: 0 <= k < |sizes| ==> sizes[k].width > 0.0 && sizes[k].height > 0.0
    ensures ViewOf(built) == Layout(sizes, pagesPerSheet, CanvasWidth, CanvasHeight)
    ensures forall k :: 0 <= k < |built| ==> fresh(built[k])
    ensures forall k, l :: 0 <= k < l < |built| ==> built[k] != built[l]
    ensures forall k :: 0 <= k < |built| ==>
              QuarterTurn(built[k].rotation) && built[k].width > 0.0 && built[k].height > 0.0
  {
    built := [];
    var i := 1;
    while i <= |sizes|
      invariant 1 <= i <= |sizes| + 1 && |built| == i - 1
      invariant forall k :: 0 <= k < |built| ==> fresh(built[k])
      invariant forall k, l :: 0 <= k < l < |built| ==> built[k] != built[l]
      invariant forall k :: 0 <= k < |built| ==>
                  built[k].Rec() == LayoutRecord(k + 1, sizes[k], pagesPerSheet, CanvasWidth, CanvasHeight)
    {
      var page := new Page(LayoutRecord(i, sizes[i - 1], pagesPerSheet, CanvasWidth, CanvasHeight));
      built := built + [page];
      i := i + 1;
    }
    LayoutWellFormed(sizes, pagesPerSheet, CanvasWidth, CanvasHeight);
  }

  class Editor {
    var pages: seq<Page>
    var active: int
    var viewMode: ViewMode
    var drag: DragState

    function View(): (view: seq<PageRec>)
      reads this, pages
      ensures |view| == |pages|
      ensures forall i :: 0 <= i < |pages| ==> view[i] == pages[i].Rec()
    {
      ViewOf(pages)
    }

    /**
     * Distinct page objects, each turned by a multiple of 90 degrees and of
     * positive size; a drag names an existing page, and no drag is the idle record.
     */
    ghost predicate Valid()
      reads this, pages
    {
      (forall i, j :: 0 <= i < j < |pages| ==> pages[i] != pages[j]) &&
      (forall i :: 0 <= i < |pages| ==>
         QuarterTurn(pages[i].rotation) && pages[i].width > 0.0 && pages[i].height > 0.0) &&
      (drag.isDragging ==> 0 <= drag.target < |pages|) &&
      (!drag.isDragging ==> drag == Idle)
    }

    /** The initial state: no pages, no active page, editor view, no drag. */
    constructor ()
      ensures Valid()
      ensures pages == [] && active == -1 && viewMode == EditorView && drag == Idle
    {
      pages := [];
      active := -1;
      viewMode := EditorView;
      drag := Idle;
    }

    /**
     * `resetAndLayoutPages`: a fresh record for every source page, placed in
     * its slot; earlier edits are discarded and page `currentPage` becomes active.
     */
    method Relayout(sizes: seq<Size>, pagesPerSheet: int, currentPage: int)
      requires Valid() && !drag.isDragging
      requires forall k :: 0 <= k < |sizes| ==> sizes[k].width > 0.0 && sizes[k].height > 0.0
      modifies this
      ensures Valid()
      ensures View() == Layout(sizes, pagesPerSheet, CanvasWidth, CanvasHeight)
      ensures forall k :: 0 <= k < |pages| ==> fresh(pages[k])
      ensures active == currentPage - 1 && drag == old(drag) && viewMode == old(viewMode)
    {
      var newPages := BuildPages(sizes, pagesPerSheet);
      pages := newPages;
      active := currentPage - 1;
    }

    /** A file that is absent or not a PDF empties the page array. */
    method ClearDocument()
      requires Valid() && !drag.isDragging
      modifies this
      ensures Valid()
      ensures pages == [] && active == old(active) && drag == old(drag) && viewMode == old(viewMode)
    {
      pages := [];
    }

    /** The scan of mouse-down in the editor view, from the last shown page to the first. */
    method FindHit(pos: Point, currentPage: int, pagesPerSheet: int) returns (hit: Option<Hit>)
      requires Valid()
      ensures hit == HitScan(View(), pos, currentPage - 1, pagesPerSheet)
    {
      var first := currentPage - 1;
      var k := pagesPerSheet;
      while k > 0
        invariant HitScan(View(), pos, first, pagesPerSheet) == HitScan(View(), pos, first, k)
      {
        var index := first + k - 1;
        if 0 <= index < |pages| {
          var kind := GrabAt(pos, pages[index].Rec());
          if kind != NoDrag {
            return Some(Hit(index, kind));
          }
        }
        k := k - 1;
      }
      return None;
    }

    /** The scan of mouse-down in the sequence view, from the first thumbnail on. */
    method FindThumb(pos: Point) returns (found: Option<nat>)
      requires Valid()
      ensures found == ThumbScan(pos, 0, |pages|)
    {
      var i := 0;
      while i < |pages|
        invariant 0 <= i <= |pages|
        invariant ThumbScan(pos, 0, |pages|) == ThumbScan(pos, i, |pages|)
      {
        if InCell(pos, ThumbCell(i)) {
          return Some(i);
        }
        i := i + 1;
      }
      return None;
    }

    /**
     * `handleMouseDown`. In the editor view the topmost shown page under the
     * pointer becomes active and its handle or body is grabbed; a miss clears
     * the active page. In the sequence view a thumbnail under the pointer starts
     * a reorder drag.
     */
    method MouseDown(pos: Point, currentPage: int, pagesPerSheet: int)
      requires Valid()
      modifies this
      ensures Valid()
      ensures pages == old(pages) && View() == old(View()) && viewMode == old(viewMode)
      ensures viewMode == EditorView ==>
                match HitScan(View(), pos, currentPage - 1, pagesPerSheet)
                case Some(h) =>
                  active == h.index &&
                  drag == DragState(true, h.kind, h.index, GrabStart(h.kind, pos, View()[h.index]))
                case None => active == -1 && drag == old(drag)
      ensures viewMode == SequenceView ==>
                active == old(active) &&
                match ThumbScan(pos, 0, |pages|)
                case Some(i) => drag == DragState(true, NoDrag, i, pos)
                case None => drag == old(drag)
    {
      if viewMode == EditorView {
        PressPage(pos, currentPage, pagesPerSheet);
      } else {
        PressThumbnail(pos);
      }
    }

    /** Mouse-down in the editor view. */
    method PressPage(pos: Point, currentPage: int, pagesPerSheet: int)
      requires Valid()
      modifies this
      ensures Valid()
      ensures pages == old(pages) && viewMode == old(viewMode)
      ensures match HitScan(old(View()), pos, currentPage - 1, pagesPerSheet)
              case Some(h) =>
                active == h.index &&
                drag == DragState(true, h.kind, h.index, GrabStart(h.kind, pos, old(View())[h.index]))
              case None => active == -1 && drag == old(drag)
    {
      var hit := FindHit(pos, currentPage, pagesPerSheet);
      match hit {
        case Some(h) =>
          var start := GrabStart(h.kind, pos, pages[h.index].Rec());
          active := h.index;
          drag := DragState(true, h.kind, h.index, start);
        case None =>
          active := -1;
      }
    }

    /** Mouse-down in the sequence view. */
    method PressThumbnail(pos: Point)
      requires Valid()
      modifies this
      ensures Valid()
      ensures pages == old(pages) && viewMode == old(viewMode) && active == old(active)
      ensures match ThumbScan(pos, 0, |pages|)
              case Some(i) => drag == DragState(true, NoDrag, i, pos)
              case None => drag == old(drag)
    {
      var found := FindThumb(pos);
      match found {
        case Some(i) =>
          drag := DragState(true, NoDrag, i, pos);
        case None =>
      }
    }

    /**
     * `handleMouseMove`. During an editor drag the dragged page takes one
     * drag step and a resize re-anchors at the pointer; nothing else changes.
     */
    method MouseMove(pos: Point)
      requires Valid()
      modifies this, pages
      ensures Valid()
      ensures pages == old(pages) && active == old(active) && viewMode == old(viewMode)
      ensures viewMode == EditorView && old(drag).isDragging ==>
                var t := old(drag).target;
                View() == old(View())[t := DragStep(old(View())[t], old(drag).kind, pos, old(drag).start)] &&
                drag == old(drag).(start := NextStart(old(drag).kind, pos, old(drag).start))
      ensures !(viewMode == EditorView && old(drag).isDragging) ==> View() == old(View()) && drag == old(drag)
    {
      if viewMode == EditorView && drag.isDragging {
        var t := drag.target;
        ghost var before := View();
        var page := pages[t];
        var next := DragStep(page.Rec(), drag.kind, pos, drag.start);
        page.SetBox(next);
        assert page.Rec() == next;
        forall j | 0 <= j < |pages| && j != t
          ensures pages[j].Rec() == before[j]
        {
          assert pages[j] != page;
        }
        assert View() == before[t := next];
        drag := drag.(start := NextStart(drag.kind, pos, drag.start));
      }
    }

    /**
     * `handleMouseUp` (also mouse-leave): a sequence-view drag released over
     * another position moves the dragged page there; the drag always ends.
     */
    method MouseUp(pos: Point)
      requires Valid()
      modifies this
      ensures Valid()
      ensures drag == Idle && active == old(active) && viewMode == old(viewMode)
      ensures var t, d := old(drag).target, DropIndex(pos, |old(pages)|);
              if viewMode == SequenceView && old(drag).isDragging && t != d
              then pages == Reorder(old(pages), t, d)
              else pages == old(pages)
      ensures multiset(pages) == multiset(old(pages))
    {
      if viewMode == SequenceView && drag.isDragging {
        var target := drag.target;
        var dropIndex := DropIndex(pos, |pages|);
        if target != dropIndex {
          ReorderPermutes(pages, target, dropIndex);
          ReorderKeepsDistinct(pages, target, dropIndex);
          forall k | 0 <= k < |pages| ensures Reorder(pages, target, dropIndex)[k] in pages {
            ReorderSource(pages, target, dropIndex, k);
          }
          pages := Reorder(pages, target, dropIndex);
        }
      }
      drag := Idle;
    }

    /**
     * The Rotate button, which only the editor view shows: the active page
     * turns a further 90 degrees; with none active nothing happens.
     */
    method Rotate()
      requires Valid() && -1 <= active < |pages| && viewMode == EditorView
      modifies pages
      ensures Valid()
      ensures active != -1 ==>
                View() == old(View())[active := old(View())[active].(rotation := Rotated(old(View())[active].rotation))]
      ensures active == -1 ==> View() == old(View())
    {
      if active != -1 {
        var page := pages[active];
        page.rotation := Rotated(page.rotation);
      }
    }

    /** The Editor and Sequence buttons. */
    method SetViewMode(mode: ViewMode)
      requires Valid()
      modifies this
      ensures Valid()
      ensures viewMode == mode && pages == old(pages) && active == old(active) && drag == old(drag)
    {
      viewMode := mode;
    }
  }

  /**
   * The cache of rendered pages, keyed by page number: a page is rendered at
   * most once until the cache is cleared when a new document loads.
   */
  class RenderCache<R> {
    var entries: map<int, R>

    constructor ()
      ensures entries == map[]
    {
      entries := map[];
    }

    method Clear()
      modifies this
      ensures entries == map[]
    {
      entries := map[];
    }

    /** Looks up a page; `rendered` is what rendering it now would give and is used only on a miss. */
    method Get(pageNumber: int, rendered: R) returns (image: R)
      modifies this
      ensures pageNumber in old(entries) ==> image == old(entries)[pageNumber] && entries == old(entries)
      ensures pageNumber !in old(entries) ==> image == rendered && entries == old(entries)[pageNumber := rendered]
    {
      if pageNumber in entries {
        image := entries[pageNumber];
      } else {
        image := rendered;
        entries := entries[pageNumber := rendered];
      }
    }
  }
}
