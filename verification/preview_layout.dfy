/**
 * The geometry of the print preview (src/components/PrintPreview.jsx): where
 * each source page goes on an N-up sheet, the corner handles and page bodies
 * the pointer can grab, what one pointer-move step does to a grabbed page,
 * rotation, the thumbnail grid of the sequence view with its drop index, the
 * reordering splice, and the Prev/Next page clamps.
 *
 * Coordinates are Dafny `real`s: exact rationals standing in for the
 * JavaScript doubles of the canvas.
 */
module PreviewLayout {
  import opened Wrappers

  /** The canvas is 595 by 842 units. */
  const CanvasWidth: real := 595.0
  const CanvasHeight: real := 842.0

  /** A point on the canvas. */
  datatype Point = Point(x: real, y: real)

  /** An axis-parallel rectangle. */
  datatype Box = Box(x: real, y: real, width: real, height: real)

  /** The record the preview keeps for one placed page. */
  datatype PageRec = PageRec(pageNumber: int, x: real, y: real, width: real, height: real, rotation: int)

  /** The width and height of a source page at scale 1. */
  datatype Size = Size(width: real, height: real)

  function MinReal(a: real, b: real): real { if a <= b then a else b }
  function MaxReal(a: real, b: real): real { if a >= b then a else b }

  // ------------------------------------------------------------ N-up layout

  /** The position of page `i` (1-based) on its sheet: `(i - 1) % pagesPerSheet`. */
  function SlotOnSheet(i: int, pagesPerSheet: int): (p: int)
    requires i >= 1 && pagesPerSheet >= 1
    ensures 0 <= p < pagesPerSheet
  {
    (i - 1) % pagesPerSheet
  }

  /**
   * The box page `i` is fitted into: the top or bottom half in 2-up, a
   * quarter of the canvas in 4-up, the whole canvas otherwise.
   */
  function TargetBox(pagesPerSheet: int, i: int, w: real, h: real): (b: Box)
    requires i >= 1
    ensures pagesPerSheet != 2 && pagesPerSheet != 4 ==> b == Box(0.0, 0.0, w, h)
  {
    if pagesPerSheet == 2 then
      Box(0.0, if SlotOnSheet(i, 2) == 0 then 0.0 else h / 2.0, w, h / 2.0)
    else if pagesPerSheet == 4 then
      var p := SlotOnSheet(i, 4);
      Box((p % 2) as real * (w / 2.0), (p / 2) as real * (h / 2.0), w / 2.0, h / 2.0)
    else
      Box(0.0, 0.0, w, h)
  }

  /** Whether box `a` lies within box `b`. */
  predicate Within(a: Box, b: Box) {
    b.x <= a.x && a.x + a.width <= b.x + b.width && b.y <= a.y && a.y + a.height <= b.y + b.height
  }

  /** Whether two boxes share no interior point. */
  predicate Apart(a: Box, b: Box) {
    a.x + a.width <= b.x || b.x + b.width <= a.x || a.y + a.height <= b.y || b.y + b.height <= a.y
  }

  /** Every target box lies on the canvas. */
  lemma TargetBoxOnCanvas(pagesPerSheet: int, i: int, w: real, h: real)
    requires i >= 1 && w >= 0.0 && h >= 0.0
    ensures Within(TargetBox(pagesPerSheet, i, w, h), Box(0.0, 0.0, w, h))
  {
    if pagesPerSheet == 2 {
      assert h / 2.0 + h / 2.0 == h;
    } else if pagesPerSheet == 4 {
      var p := SlotOnSheet(i, 4);
      var col, row := (p % 2) as real, (p / 2) as real;
      assert col == 0.0 || col == 1.0;
      assert row == 0.0 || row == 1.0;
      assert col * (w / 2.0) + w / 2.0 <= w by {
        if col == 1.0 { assert col * (w / 2.0) == w / 2.0; }
      }
      assert row * (h / 2.0) + h / 2.0 <= h by {
        if row == 1.0 { assert row * (h / 2.0) == h / 2.0; }
      }
    }
  }

  /** In 2-up the first page of a sheet takes the top half and the second the bottom half. */
  lemma TwoUpHalves(i: int, w: real, h: real)
    requires i >= 1
    ensures (i - 1) % 2 == 0 ==> TargetBox(2, i, w, h) == Box(0.0, 0.0, w, h / 2.0)
    ensures (i - 1) % 2 == 1 ==> TargetBox(2, i, w, h) == Box(0.0, h / 2.0, w, h / 2.0)
  {
  }

  /** In 4-up the slots fill the grid row by row: column `p % 2`, row `p / 2`. */
  lemma FourUpQuadrants(i: int, w: real, h: real)
    requires i >= 1
    ensures var b := TargetBox(4, i, w, h);
            b.width == w / 2.0 && b.height == h / 2.0 &&
            match (i - 1) % 4
            case 0 => b.x == 0.0 && b.y == 0.0
            case 1 => b.x == w / 2.0 && b.y == 0.0
            case 2 => b.x == 0.0 && b.y == h / 2.0
            case _ => b.x == w / 2.0 && b.y == h / 2.0
  {
    var p := SlotOnSheet(i, 4);
    assert p == (i - 1) % 4;
    if p == 0 {
      assert (p % 2) as real == 0.0 && (p / 2) as real == 0.0;
    } else if p == 1 {
      assert (p % 2) as real == 1.0 && (p / 2) as real == 0.0;
    } else if p == 2 {
      assert (p % 2) as real == 0.0 && (p / 2) as real == 1.0;
    } else {
      assert (p % 2) as real == 1.0 && (p / 2) as real == 1.0;
    }
  }

  /** Two different pages on the same 2-up or 4-up sheet get boxes that do not overlap. */
  lemma SameSheetBoxesApart(pagesPerSheet: int, i: int, j: int, w: real, h: real)
    requires pagesPerSheet == 2 || pagesPerSheet == 4
    requires 1 <= i && 1 <= j && i != j
    requires (i - 1) / pagesPerSheet == (j - 1) / pagesPerSheet
    requires w > 0.0 && h > 0.0
    ensures Apart(TargetBox(pagesPerSheet, i, w, h), TargetBox(pagesPerSheet, j, w, h))
  {
    var p, q := SlotOnSheet(i, pagesPerSheet), SlotOnSheet(j, pagesPerSheet);
    assert p != q by {
      assert i - 1 == pagesPerSheet * ((i - 1) / pagesPerSheet) + p;
      assert j - 1 == pagesPerSheet * ((j - 1) / pagesPerSheet) + q;
    }
  }

  /** `Math.min(tw / vw, th / vh) * 0.9`. */
  function FitScale(box: Box, page: Size): (s: real)
    requires page.width > 0.0 && page.height > 0.0
    ensures box.width >= 0.0 && box.height >= 0.0 ==> s >= 0.0
  {
    MinReal(box.width / page.width, box.height / page.height) * 0.9
  }

  /** The scale fills 90% of the box along one side and no more than 90% along the other. */
  lemma FitScaleIsBestFit(box: Box, page: Size)
    requires page.width > 0.0 && page.height > 0.0
    ensures var s := FitScale(box, page);
            page.width * s <= 0.9 * box.width && page.height * s <= 0.9 * box.height &&
            (page.width * s == 0.9 * box.width || page.height * s == 0.9 * box.height)
  {
    var a, b := box.width / page.width, box.height / page.height;
    assert a * page.width == box.width;
    assert b * page.height == box.height;
    if a <= b {
      assert page.height * a <= page.height * b;
    } else {
      assert page.width * b <= page.width * a;
    }
  }

  /** The record of page `i` scaled by the best-fit scale and centred in `box`. */
  function Place(i: int, box: Box, page: Size): (r: PageRec)
    requires page.width > 0.0 && page.height > 0.0
    ensures r.pageNumber == i && r.rotation == 0
  {
    var scale := FitScale(box, page);
    var scaledWidth := page.width * scale;
    var scaledHeight := page.height * scale;
    PageRec(i, box.x + (box.width - scaledWidth) / 2.0, box.y + (box.height - scaledHeight) / 2.0,
            scaledWidth, scaledHeight, 0)
  }

  function RecBox(r: PageRec): Box { Box(r.x, r.y, r.width, r.height) }

  /**
   * The placed page lies inside its box, keeps the page's aspect ratio, has
   * equal margins left and right and top and bottom, and is not empty.
   */
  lemma PlaceFitsCentred(i: int, box: Box, page: Size)
    requires page.width > 0.0 && page.height > 0.0
    requires box.width > 0.0 && box.height > 0.0
    ensures var r := Place(i, box, page);
            Within(RecBox(r), box) &&
            r.width * page.height == r.height * page.width &&
            r.x - box.x == (box.x + box.width) - (r.x + r.width) &&
            r.y - box.y == (box.y + box.height) - (r.y + r.height) &&
            r.width > 0.0 && r.height > 0.0
  {
    FitScaleIsBestFit(box, page);
    var s := FitScale(box, page);
    assert s > 0.0;
    assert page.width * s > 0.0 && page.height * s > 0.0;
  }

  /** The record the layout loop pushes for page `i`. */
  function LayoutRecord(i: int, page: Size, pagesPerSheet: int, w: real, h: real): (r: PageRec)
    requires i >= 1 && page.width > 0.0 && page.height > 0.0
    ensures r.pageNumber == i && r.rotation == 0
  {
    Place(i, TargetBox(pagesPerSheet, i, w, h), page)
  }

  /** The records the layout loop builds: one per source page, in order. */
  function Layout(sizes: seq<Size>, pagesPerSheet: int, w: real, h: real): (view: seq<PageRec>)
    requires forall k :: 0 <= k < |sizes| ==> sizes[k].width > 0.0 && sizes[k].height > 0.0
    ensures |view| == |sizes|
    ensures forall k :: 0 <= k < |sizes| ==> view[k] == LayoutRecord(k + 1, sizes[k], pagesPerSheet, w, h)
  {
    if sizes == [] then []
    else Layout(sizes[..|sizes| - 1], pagesPerSheet, w, h)
         + [LayoutRecord(|sizes|, sizes[|sizes| - 1], pagesPerSheet, w, h)]
  }

  /**
   * The layout numbers the pages 1, 2, ... in order, unrotated, each inside
   * its slot on the canvas and not empty.
   */
  lemma LayoutNumbersAndPlaces(sizes: seq<Size>, pagesPerSheet: int, w: real, h: real, k: int)
    requires forall j :: 0 <= j < |sizes| ==> sizes[j].width > 0.0 && sizes[j].height > 0.0
    requires w > 0.0 && h > 0.0 && 0 <= k < |sizes|
    ensures var r := Layout(sizes, pagesPerSheet, w, h)[k];
            r.pageNumber == k + 1 && r.rotation == 0 && r.width > 0.0 && r.height > 0.0 &&
            Within(RecBox(r), TargetBox(pagesPerSheet, k + 1, w, h)) && Within(RecBox(r), Box(0.0, 0.0, w, h))
  {
    LayoutRecordOnCanvas(k + 1, sizes[k], pagesPerSheet, w, h);
    var b := TargetBox(pagesPerSheet, k + 1, w, h);
    assert b.width > 0.0 && b.height > 0.0;
    PlaceFitsCentred(k + 1, b, sizes[k]);
  }

  /** Every laid-out page is unrotated and has a positive size. */
  lemma LayoutWellFormed(sizes: seq<Size>, pagesPerSheet: int, w: real, h: real)
    requires forall j :: 0 <= j < |sizes| ==> sizes[j].width > 0.0 && sizes[j].height > 0.0
    requires w > 0.0 && h > 0.0
    ensures forall k :: 0 <= k < |sizes| ==>
              var r := Layout(sizes, pagesPerSheet, w, h)[k];
              r.rotation == 0 && r.width > 0.0 && r.height > 0.0
  {
    forall k | 0 <= k < |sizes|
      ensures var r := Layout(sizes, pagesPerSheet, w, h)[k];
              r.rotation == 0 && r.width > 0.0 && r.height > 0.0
    {
      LayoutNumbersAndPlaces(sizes, pagesPerSheet, w, h, k);
    }
  }

  /** Every laid-out page sits inside its target box and on the canvas. */
  lemma LayoutRecordOnCanvas(i: int, page: Size, pagesPerSheet: int, w: real, h: real)
    requires i >= 1 && page.width > 0.0 && page.height > 0.0 && w > 0.0 && h > 0.0
    ensures Within(RecBox(LayoutRecord(i, page, pagesPerSheet, w, h)), TargetBox(pagesPerSheet, i, w, h))
    ensures Within(RecBox(LayoutRecord(i, page, pagesPerSheet, w, h)), Box(0.0, 0.0, w, h))
  {
    var b := TargetBox(pagesPerSheet, i, w, h);
    assert b.width > 0.0 && b.height > 0.0;
    PlaceFitsCentred(i, b, page);
    TargetBoxOnCanvas(pagesPerSheet, i, w, h);
  }

  // ------------------------------------------------------------ hit testing

  /** The four resize handles. */
  datatype Handle = ResizeBR | ResizeBL | ResizeTR | ResizeTL

  /** The corner a handle sits on. */
  function Corner(r: PageRec, h: Handle): Point {
    match h
    case ResizeBR => Point(r.x + r.width, r.y + r.height)
    case ResizeBL => Point(r.x, r.y + r.height)
    case ResizeTR => Point(r.x + r.width, r.y)
    case ResizeTL => Point(r.x, r.y)
  }

  /** Half the 8-unit handle size. */
  const HalfHandle: real := 4.0

  /** Strictly inside the 8-by-8 square centred on `c`. */
  predicate NearCorner(pos: Point, c: Point) {
    c.x - HalfHandle < pos.x < c.x + HalfHandle && c.y - HalfHandle < pos.y < c.y + HalfHandle
  }

  /** The order in which `checkHandleCollision` tests the corners. */
  function Rank(h: Handle): nat {
    match h
    case ResizeBR => 0
    case ResizeBL => 1
    case ResizeTR => 2
    case ResizeTL => 3
  }

  /** `checkHandleCollision`: the first corner, in the order br, bl, tr, tl, whose handle holds `pos`. */
  function HandleAt(pos: Point, r: PageRec): (res: Option<Handle>)
    ensures res.Some? ==> NearCorner(pos, Corner(r, res.value))
    ensures res.Some? ==> forall h :: Rank(h) < Rank(res.value) ==> !NearCorner(pos, Corner(r, h))
    ensures res.None? <==> forall h :: !NearCorner(pos, Corner(r, h))
  {
    if NearCorner(pos, Corner(r, ResizeBR)) then Some(ResizeBR)
    else if NearCorner(pos, Corner(r, ResizeBL)) then Some(ResizeBL)
    else if NearCorner(pos, Corner(r, ResizeTR)) then Some(ResizeTR)
    else if NearCorner(pos, Corner(r, ResizeTL)) then Some(ResizeTL)
    else None
  }

  /** On a page at least 8 units wide and high the handles do not overlap, so the order is immaterial. */
  lemma HandlesApart(pos: Point, r: PageRec, h: Handle)
    requires r.width >= 2.0 * HalfHandle && r.height >= 2.0 * HalfHandle
    requires NearCorner(pos, Corner(r, h))
    ensures HandleAt(pos, r) == Some(h)
  {
  }

  /** The body test of mouse-down: the closed rectangle of the page. */
  predicate Inside(pos: Point, r: PageRec) {
    r.x <= pos.x <= r.x + r.width && r.y <= pos.y <= r.y + r.height
  }

  /** What a mouse-down on page `r` grabs: a handle, the body, or nothing. */
  datatype DragKind = NoDrag | Move | Resize(handle: Handle)

  function GrabAt(pos: Point, r: PageRec): (k: DragKind)
    ensures k.Resize? <==> HandleAt(pos, r).Some?
    ensures k.Resize? ==> k.handle == HandleAt(pos, r).value
    ensures k.Move? <==> HandleAt(pos, r).None? && Inside(pos, r)
  {
    match HandleAt(pos, r)
    case Some(h) => Resize(h)
    case None => if Inside(pos, r) then Move else NoDrag
  }

  /**
   * A handle reaches beyond the page's rectangle, which is why mouse-down
   * tests the handles before the body: just outside the bottom-right corner
   * the pointer is not on the page yet still grabs that corner.
   */
  lemma HandleOutsideBody(r: PageRec)
    requires r.width >= 0.0 && r.height >= 0.0
    ensures var p := Point(r.x + r.width + 1.0, r.y + r.height + 1.0);
            !Inside(p, r) && GrabAt(p, r) == Resize(ResizeBR)
  {
  }

  /**
   * What mouse-down records as `startX`/`startY`: the grab offset from the
   * page's corner for a move, the pointer itself for a resize.
   */
  function GrabStart(kind: DragKind, pos: Point, r: PageRec): (start: Point)
    ensures kind == Move ==> pos.x - start.x == r.x && pos.y - start.y == r.y
    ensures kind != Move ==> start == pos
  {
    if kind == Move then Point(pos.x - r.x, pos.y - r.y) else pos
  }

  /** A hit: the page index and what was grabbed there. */
  datatype Hit = Hit(index: int, kind: DragKind)

  /**
   * Scans the first `count` visible indices from the last to the first, as
   * mouse-down does, skipping indices with no page: the topmost page whose
   * handle or body holds `pos`.
   */
  function HitScan(view: seq<PageRec>, pos: Point, first: int, count: int): (res: Option<Hit>)
    ensures res.Some? ==> first <= res.value.index < first + count && 0 <= res.value.index < |view|
    ensures res.Some? ==> res.value.kind == GrabAt(pos, view[res.value.index]) && res.value.kind != NoDrag
    decreases count
  {
    if count <= 0 then None
    else
      var index := first + count - 1;
      if 0 <= index < |view| && GrabAt(pos, view[index]) != NoDrag then Some(Hit(index, GrabAt(pos, view[index])))
      else HitScan(view, pos, first, count - 1)
  }

  /** The scan finds the last grabbing index: no shown page above it is grabbed. */
  lemma {:induction false} HitScanTopmost(view: seq<PageRec>, pos: Point, first: int, count: int)
    requires HitScan(view, pos, first, count).Some?
    ensures var h := HitScan(view, pos, first, count).value;
            forall j :: h.index < j < first + count && 0 <= j < |view| ==> GrabAt(pos, view[j]) == NoDrag
    decreases count
  {
    var index := first + count - 1;
    if !(0 <= index < |view| && GrabAt(pos, view[index]) != NoDrag) {
      HitScanTopmost(view, pos, first, count - 1);
    }
  }

  /** The scan finds nothing exactly when no shown page is grabbed. */
  lemma {:induction false} HitScanMisses(view: seq<PageRec>, pos: Point, first: int, count: int)
    ensures HitScan(view, pos, first, count).None? <==>
            forall j :: first <= j < first + count && 0 <= j < |view| ==> GrabAt(pos, view[j]) == NoDrag
    decreases count
  {
    if count > 0 {
      HitScanMisses(view, pos, first, count - 1);
    }
  }

  // ------------------------------------------------------------ dragging

  /** The smallest width or height a resize leaves. */
  const MinSide: real := 20.0

  /**
   * One mouse-move step of an editor drag: a move puts the page at the
   * pointer minus the grab offset `start`; a resize changes the size by the
   * pointer's displacement from the anchor `start`, floored at 20, and shifts
   * the left or top edge for the corners on that side.
   */
  function DragStep(r: PageRec, kind: DragKind, pos: Point, start: Point): (s: PageRec)
    ensures s.pageNumber == r.pageNumber && s.rotation == r.rotation
    ensures r.width > 0.0 && r.height > 0.0 ==> s.width > 0.0 && s.height > 0.0
  {
    var dx := pos.x - start.x;
    var dy := pos.y - start.y;
    match kind
    case NoDrag => r
    case Move => r.(x := pos.x - start.x, y := pos.y - start.y)
    case Resize(ResizeBR) =>
      r.(width := MaxReal(MinSide, r.width + dx), height := MaxReal(MinSide, r.height + dy))
    case Resize(ResizeBL) =>
      r.(width := MaxReal(MinSide, r.width - dx), height := MaxReal(MinSide, r.height + dy), x := r.x + dx)
    case Resize(ResizeTR) =>
      r.(width := MaxReal(MinSide, r.width + dx), height := MaxReal(MinSide, r.height - dy), y := r.y + dy)
    case Resize(ResizeTL) =>
      r.(width := MaxReal(MinSide, r.width - dx), height := MaxReal(MinSide, r.height - dy),
         x := r.x + dx, y := r.y + dy)
  }

  /** The anchor after a step: a resize re-anchors at the pointer, a move keeps its offset. */
  function NextStart(kind: DragKind, pos: Point, start: Point): (n: Point)
    ensures kind.Resize? ==> n == pos
    ensures !kind.Resize? ==> n == start
  {
    if kind.Resize? then pos else start
  }

  /** A move keeps the pointer at the same offset from the page and changes nothing else. */
  lemma MoveKeepsGrabOffset(r: PageRec, pos: Point, offset: Point)
    ensures var s := DragStep(r, Move, pos, offset);
            pos.x - s.x == offset.x && pos.y - s.y == offset.y &&
            s.width == r.width && s.height == r.height && s.rotation == r.rotation
  {
  }

  /** Every resize step leaves a page at least 20 wide and 20 high. */
  lemma ResizeFloor(r: PageRec, h: Handle, pos: Point, start: Point)
    ensures DragStep(r, Resize(h), pos, start).width >= MinSide
    ensures DragStep(r, Resize(h), pos, start).height >= MinSide
  {
  }

  /**
   * Which edges a resize moves: the bottom-right handle never moves the page's
   * origin; the left handles shift `x` and the top handles shift `y` by the
   * pointer's displacement, even when the size is held at the floor.
   */
  lemma ResizeShifts(r: PageRec, h: Handle, pos: Point, start: Point)
    ensures var s := DragStep(r, Resize(h), pos, start);
            s.x == (if h == ResizeBL || h == ResizeTL then r.x + (pos.x - start.x) else r.x) &&
            s.y == (if h == ResizeTR || h == ResizeTL then r.y + (pos.y - start.y) else r.y)
  {
  }

  /** While the floor is not reached, the corner opposite the grabbed one stays where it was. */
  lemma ResizeKeepsOppositeCorner(r: PageRec, h: Handle, pos: Point, start: Point)
    requires var dx, dy := pos.x - start.x, pos.y - start.y;
             (if h == ResizeBL || h == ResizeTL then r.width - dx else r.width + dx) >= MinSide &&
             (if h == ResizeTR || h == ResizeTL then r.height - dy else r.height + dy) >= MinSide
    ensures var opposite := match h
                            case ResizeBR => ResizeTL
                            case ResizeBL => ResizeTR
                            case ResizeTR => ResizeBL
                            case ResizeTL => ResizeBR;
            Corner(DragStep(r, Resize(h), pos, start), opposite) == Corner(r, opposite)
  {
  }

  /** While the floor is not reached, the grabbed corner follows the pointer's displacement. */
  lemma ResizeMovesGrabbedCorner(r: PageRec, h: Handle, pos: Point, start: Point)
    requires var dx, dy := pos.x - start.x, pos.y - start.y;
             (if h == ResizeBL || h == ResizeTL then r.width - dx else r.width + dx) >= MinSide &&
             (if h == ResizeTR || h == ResizeTL then r.height - dy else r.height + dy) >= MinSide
    ensures Corner(DragStep(r, Resize(h), pos, start), h)
            == Point(Corner(r, h).x + (pos.x - start.x), Corner(r, h).y + (pos.y - start.y))
  {
  }

  // ------------------------------------------------------------ rotation

  predicate QuarterTurn(rotation: int) { rotation in {0, 90, 180, 270} }

  /** The Rotate button: `(rotation + 90) % 360`. */
  function Rotated(rotation: int): (r: int)
    requires rotation >= 0
    ensures 0 <= r < 360
    ensures QuarterTurn(rotation) ==> QuarterTurn(r)
  {
    (rotation + 90) % 360
  }

  /** Four quarter turns bring a page back to where it started. */
  lemma FourRotationsIdentity(rotation: int)
    requires QuarterTurn(rotation)
    ensures Rotated(Rotated(Rotated(Rotated(rotation)))) == rotation
  {
  }

  // ------------------------------------------------------------ reordering

  /** `newPages.splice(i, 1)`: the sequence without its element at `i`. */
  function Remove<T>(s: seq<T>, i: int): (t: seq<T>)
    requires 0 <= i < |s|
    ensures |t| == |s| - 1
    ensures forall k :: 0 <= k < i ==> t[k] == s[k]
    ensures forall k :: i <= k < |t| ==> t[k] == s[k + 1]
  {
    s[..i] + s[i + 1..]
  }

  /** `newPages.splice(i, 0, x)`: the sequence with `x` inserted before position `i`. */
  function Insert<T>(s: seq<T>, i: int, x: T): (t: seq<T>)
    requires 0 <= i <= |s|
    ensures |t| == |s| + 1 && t[i] == x
    ensures forall k :: 0 <= k < i ==> t[k] == s[k]
    ensures forall k :: i < k < |t| ==> t[k] == s[k - 1]
  {
    s[..i] + [x] + s[i..]
  }

  /** The reorder of mouse-up: take the element at `from` out and put it back at `to`. */
  function Reorder<T>(s: seq<T>, from: int, to: int): (t: seq<T>)
    requires 0 <= from < |s| && 0 <= to < |s|
    ensures |t| == |s| && t[to] == s[from]
  {
    Insert(Remove(s, from), to, s[from])
  }

  /** Reordering is a permutation. */
  lemma ReorderPermutes<T>(s: seq<T>, from: int, to: int)
    requires 0 <= from < |s| && 0 <= to < |s|
    ensures multiset(Reorder(s, from, to)) == multiset(s)
  {
    RemoveCounts(s, from);
    InsertCounts(Remove(s, from), to, s[from]);
  }

  lemma RemoveCounts<T>(s: seq<T>, i: int)
    requires 0 <= i < |s|
    ensures multiset(Remove(s, i)) + multiset{s[i]} == multiset(s)
  {
    assert s == s[..i] + [s[i]] + s[i + 1..];
    assert multiset(s) == multiset(s[..i]) + multiset([s[i]]) + multiset(s[i + 1..]);
  }

  lemma InsertCounts<T>(r: seq<T>, i: int, x: T)
    requires 0 <= i <= |r|
    ensures multiset(Insert(r, i, x)) == multiset(r) + multiset{x}
  {
    assert r == r[..i] + r[i..];
    assert multiset(r) == multiset(r[..i]) + multiset(r[i..]);
  }

  /** Apart from the moved element, the others keep their relative order. */
  lemma ReorderKeepsOthersInOrder<T>(s: seq<T>, from: int, to: int)
    requires 0 <= from < |s| && 0 <= to < |s|
    ensures Remove(Reorder(s, from, to), to) == Remove(s, from)
  {
    var r := Remove(s, from);
    var t := Reorder(s, from, to);
    var u := Remove(t, to);
    assert |u| == |r|;
    forall k | 0 <= k < |u| ensures u[k] == r[k] {
      if k < to {
        assert u[k] == t[k];
      } else {
        assert u[k] == t[k + 1];
      }
    }
  }

  /** Dragging a page back from `to` to `from` restores the original order. */
  lemma ReorderRoundTrip<T>(s: seq<T>, from: int, to: int)
    requires 0 <= from < |s| && 0 <= to < |s|
    ensures Reorder(Reorder(s, from, to), to, from) == s
  {
    var t := Reorder(s, from, to);
    ReorderKeepsOthersInOrder(s, from, to);
    var back := Reorder(t, to, from);
    assert Remove(t, to) == Remove(s, from);
    forall k | 0 <= k < |s| ensures back[k] == s[k] {
      if k < from {
        assert back[k] == Remove(s, from)[k];
      } else if k > from {
        assert back[k] == Remove(s, from)[k - 1];
      }
    }
  }

  /** Reordering keeps the elements pairwise distinct. */
  lemma ReorderKeepsDistinct<T>(s: seq<T>, from: int, to: int)
    requires 0 <= from < |s| && 0 <= to < |s|
    requires forall i, j :: 0 <= i < j < |s| ==> s[i] != s[j]
    ensures var t := Reorder(s, from, to);
            forall i, j :: 0 <= i < j < |t| ==> t[i] != t[j]
  {
    var t := Reorder(s, from, to);
    // Position k of t holds the element of s at Source(k).
    forall i, j | 0 <= i < j < |t| ensures t[i] != t[j] {
      var si := Source(i, from, to);
      var sj := Source(j, from, to);
      ReorderSource(s, from, to, i);
      ReorderSource(s, from, to, j);
      assert si != sj;
    }
  }

  /** The position in the original sequence of the element that ends up at `k`. */
  function Source(k: int, from: int, to: int): int {
    if k == to then from
    else if k < to then (if k < from then k else k + 1)
    else (if k <= from then k - 1 else k)
  }

  lemma ReorderSource<T>(s: seq<T>, from: int, to: int, k: int)
    requires 0 <= from < |s| && 0 <= to < |s| && 0 <= k < |s|
    ensures 0 <= Source(k, from, to) < |s|
    ensures Reorder(s, from, to)[k] == s[Source(k, from, to)]
  {
    var r := Remove(s, from);
    var t := Insert(r, to, s[from]);
    if k < to {
      assert t[k] == r[k];
    } else if k > to {
      assert t[k] == r[k - 1];
    }
  }

  // ------------------------------------------------------------ sequence view

  /** The thumbnail grid: four columns with 20 units of padding. */
  const Columns: int := 4
  const Padding: real := 20.0

  /** `(canvas.width - (cols + 1) * padding) / cols`. */
  const ThumbWidth: real := (CanvasWidth - 5.0 * Padding) / 4.0
  /** `thumbWidth * (canvas.height / canvas.width)`. */
  const ThumbHeight: real := ThumbWidth * (CanvasHeight / CanvasWidth)

  /** The thumbnail cell of position `i`: column `i % 4`, row `floor(i / 4)`. */
  function ThumbCell(i: nat): (b: Box)
    ensures b.width == ThumbWidth && b.height == ThumbHeight
    ensures Padding <= b.x && b.x + b.width + Padding <= CanvasWidth && Padding <= b.y
  {
    var col, row := (i % 4) as real, (i / 4) as real;
    assert 0.0 <= col <= 3.0 && 0.0 <= row;
    assert ThumbHeight + Padding > 0.0;
    assert row * (ThumbHeight + Padding) >= 0.0;
    Box(Padding + (i % 4) as real * (ThumbWidth + Padding),
        Padding + (i / 4) as real * (ThumbHeight + Padding), ThumbWidth, ThumbHeight)
  }

  /** The strict test of mouse-down in the sequence view. */
  predicate InCell(pos: Point, b: Box) {
    b.x < pos.x < b.x + b.width && b.y < pos.y < b.y + b.height
  }

  /** The first thumbnail among `count` whose cell holds `pos`, scanning from `from`. */
  function ThumbScan(pos: Point, from: nat, count: nat): (res: Option<nat>)
    ensures res.Some? ==> from <= res.value < count && InCell(pos, ThumbCell(res.value))
    ensures res.None? ==> forall i: nat :: from <= i < count ==> !InCell(pos, ThumbCell(i))
    decreases count - from
  {
    if from >= count then None
    else if InCell(pos, ThumbCell(from)) then Some(from)
    else ThumbScan(pos, from + 1, count)
  }

  /** `Math.max(0, Math.min(pages.length - 1, row * cols + col))` of mouse-up. */
  function DropIndex(pos: Point, count: int): (d: int)
    ensures count >= 1 ==> 0 <= d < count
  {
    var col := ((pos.x - Padding / 2.0) / (ThumbWidth + Padding)).Floor;
    var row := ((pos.y - Padding / 2.0) / (ThumbHeight + Padding)).Floor;
    var cell := row * Columns + col;
    if count - 1 <= cell then (if count - 1 >= 0 then count - 1 else 0)
    else if cell >= 0 then cell else 0
  }

  /** `a / d` rounds down to `c` when `a` lies in the `c`-th band of width `d`. */
  lemma FloorOfQuotient(a: real, d: real, c: int)
    requires d > 0.0
    requires (c as real) * d <= a < (c as real + 1.0) * d
    ensures (a / d).Floor == c
  {
    var q := a / d;
    assert q * d == a;
    assert (q - c as real) * d == a - (c as real) * d;
    assert (c as real + 1.0 - q) * d == (c as real + 1.0) * d - a;
    ProductSign(q - c as real, d);
    ProductSign(c as real + 1.0 - q, d);
  }

  /** A product with a positive factor keeps the sign of the other factor. */
  lemma ProductSign(x: real, d: real)
    requires d > 0.0
    ensures x * d >= 0.0 ==> x >= 0.0
    ensures x * d > 0.0 ==> x > 0.0
  {
    if x < 0.0 {
      assert x * d < 0.0;
    } else if x == 0.0 {
      assert x * d == 0.0;
    }
  }

  lemma ScaleMonotone(a: real, b: real, d: real)
    requires a <= b && d > 0.0
    ensures a * d <= b * d
    ensures a < b ==> a * d < b * d
  {
  }

  /** Releasing the pointer over the cell a thumbnail occupies drops it at that position. */
  lemma DropInCellIsThatPosition(pos: Point, i: nat, count: int)
    requires i < count
    requires InCell(pos, ThumbCell(i))
    ensures DropIndex(pos, count) == i
  {
    var c, r := i % 4, i / 4;
    assert ThumbWidth == 123.75;
    FloorOfQuotient(pos.x - Padding / 2.0, ThumbWidth + Padding, c);
    assert ThumbHeight > 0.0;
    FloorOfQuotient(pos.y - Padding / 2.0, ThumbHeight + Padding, r);
    assert r * Columns + c == i;
  }

  /** The thumbnail cells do not overlap, so the sequence view's first hit is the only one. */
  lemma ThumbCellsApart(i: nat, j: nat)
    requires i != j
    ensures Apart(ThumbCell(i), ThumbCell(j))
  {
    assert ThumbWidth == 123.75;
    if i % 4 == j % 4 {
      if i / 4 < j / 4 {
        BandsApart(i / 4, j / 4, ThumbHeight, Padding);
      } else {
        BandsApart(j / 4, i / 4, ThumbHeight, Padding);
      }
    }
  }

  /** Band `a` of a grid with bands of `size` plus `gap` ends before band `b > a` starts. */
  lemma BandsApart(a: int, b: int, size: real, gap: real)
    requires a < b && size > 0.0 && gap >= 0.0
    ensures gap + a as real * (size + gap) + size <= gap + b as real * (size + gap)
  {
    var d := size + gap;
    ScaleMonotone(a as real + 1.0, b as real, d);
    assert (a as real + 1.0) * d == a as real * d + d;
  }

  // ------------------------------------------------------------ navigation

  /** Prev: `Math.max(1, currentPage - pagesPerSheet)`. */
  function PrevPage(currentPage: int, pagesPerSheet: int): (p: int)
    ensures p >= 1
    ensures pagesPerSheet >= 0 && currentPage >= 1 ==> p <= currentPage
  {
    if currentPage - pagesPerSheet >= 1 then currentPage - pagesPerSheet else 1
  }

  /** Next: `Math.min(pages.length || 1, currentPage + pagesPerSheet)`. */
  function NextPage(currentPage: int, pagesPerSheet: int, pageCount: nat): (p: int)
    ensures p <= (if pageCount == 0 then 1 else pageCount)
    ensures pagesPerSheet >= 0 && currentPage <= pageCount ==> currentPage <= p
  {
    var last := if pageCount == 0 then 1 else pageCount;
    if last <= currentPage + pagesPerSheet then last else currentPage + pagesPerSheet
  }

  /** From a page in range, Prev and Next stay in range. */
  lemma NavigationStaysInRange(currentPage: int, pagesPerSheet: int, pageCount: nat)
    requires 1 <= currentPage <= pageCount && pagesPerSheet >= 1
    ensures 1 <= PrevPage(currentPage, pagesPerSheet) <= pageCount
    ensures 1 <= NextPage(currentPage, pagesPerSheet, pageCount) <= pageCount
  {
  }

  /** Away from the ends, Next then Prev comes back to the same page. */
  lemma NextThenPrev(currentPage: int, pagesPerSheet: int, pageCount: nat)
    requires pagesPerSheet >= 1 && currentPage >= 1 && currentPage + pagesPerSheet <= pageCount
    ensures PrevPage(NextPage(currentPage, pagesPerSheet, pageCount), pagesPerSheet) == currentPage
  {
  }
}
