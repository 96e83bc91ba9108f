/**
 * `get_patches`: the sliding window over a diagram. Windows start at (0, 0)
 * and advance by `patch_size - overlap` along each axis, y in the outer loop
 * and x in the inner one; a window is produced only while its start is
 * strictly below `diagram_size - patch_size`. Each window yields its slice of
 * the grid and a label telling whether a transition line crosses the window
 * shrunk by the label offset.
 */
module PatchGenerator {
  import opened Wrappers
  import opened PyOps
  import opened Geometry
  import opened DiagramOffline

  /** Pixels kept on the left of each patch for the trailing average when `use_ewma` is set. */
  const EwmaMargin: int := 3

  /** The top-left corner of a window, in pixels. */
  datatype Window = Window(x: int, y: int)

  /** One item of the generator: the patch values and its line label. */
  datatype LabelledPatch = LabelledPatch(patch: Grid, hasLine: bool)

  /** The width of an extracted patch: the patch width, widened by the EWMA margin when it is used. */
  function ExtractWidth(sizeX: int, useEwma: bool): int
  {
    if useEwma then sizeX + EwmaMargin else sizeX
  }

  /**
   * The requests this model covers: a well-formed diagram, label offsets
   * between zero and the patch size, and positive steps on both axes.
   */
  predicate ValidRequest(d: Diagram, patchSize: (int, int), overlap: (int, int), labelOffset: (int, int), useEwma: bool)
  {
    && d.Valid()
    && 0 <= labelOffset.0 <= patchSize.0
    && 0 <= labelOffset.1 <= patchSize.1
    && ExtractWidth(patchSize.0, useEwma) - overlap.0 > 0
    && patchSize.1 - overlap.1 > 0
  }

  /** The start rows: `range(0, diagram_size_y - patch_size_y, patch_size_y - overlap_y)`. */
  function RowStarts(d: Diagram, patchSize: (int, int), overlap: (int, int)): seq<int>
    requires patchSize.1 - overlap.1 > 0
  {
    PyRange(0, |d.yAxes| - patchSize.1, patchSize.1 - overlap.1)
  }

  /** The start columns, with the (possibly widened) extract width in both the bound and the step. */
  function ColumnStarts(d: Diagram, patchSize: (int, int), overlap: (int, int), useEwma: bool): seq<int>
    requires ExtractWidth(patchSize.0, useEwma) - overlap.0 > 0
  {
    var width := ExtractWidth(patchSize.0, useEwma);
    PyRange(0, |d.xAxes| - width, width - overlap.0)
  }

  /** One row of windows: every start column at start row `y`. */
  function RowWindows(y: int, xs: seq<int>): seq<Window>
  {
    seq(|xs|, i requires 0 <= i < |xs| => Window(xs[i], y))
  }

  /** The windows of the nested loops, in generation order: row after row. */
  function Windows(ys: seq<int>, xs: seq<int>): seq<Window>
    decreases |ys|
  {
    if ys == [] then [] else Windows(ys[..|ys| - 1], xs) + RowWindows(ys[|ys| - 1], xs)
  }

  /** There is one window per pair (start row, start column). */
  lemma {:induction false} WindowsCount(ys: seq<int>, xs: seq<int>)
    ensures |Windows(ys, xs)| == |ys| * |xs|
    decreases |ys|
  {
    if ys != [] {
      WindowsCount(ys[..|ys| - 1], xs);
      assert (|ys| - 1) * |xs| + |xs| == |ys| * |xs|;
    }
  }

  /** Every window pairs a start row with a start column, and every such pair is a window. */
  lemma {:induction false} WindowsCover(ys: seq<int>, xs: seq<int>)
    ensures forall k :: 0 <= k < |Windows(ys, xs)| ==> Windows(ys, xs)[k].y in ys && Windows(ys, xs)[k].x in xs
    ensures forall y, x :: y in ys && x in xs ==> Window(x, y) in Windows(ys, xs)
    decreases |ys|
  {
    if ys != [] {
      var init, last := ys[..|ys| - 1], ys[|ys| - 1];
      WindowsCover(init, xs);
      assert ys == init + [last];
      var ws := Windows(ys, xs);
      assert ws == Windows(init, xs) + RowWindows(last, xs);
      forall y, x | y in ys && x in xs
        ensures Window(x, y) in ws
      {
        if y == last {
          var i :| 0 <= i < |xs| && xs[i] == x;
          assert RowWindows(last, xs)[i] == Window(x, y);
        } else {
          assert y in init;
        }
      }
    }
  }

  /** Window `a` comes before window `b` in row-major order. */
  predicate RowMajorBefore(a: Window, b: Window)
  {
    a.y < b.y || (a.y == b.y && a.x < b.x)
  }

  /**
   * With increasing start rows and columns, windows come out in row-major
   * order: a later window is on a later row, or on the same row further right.
   */
  lemma {:induction false} WindowsRowMajor(ys: seq<int>, xs: seq<int>)
    requires forall i, j :: 0 <= i < j < |ys| ==> ys[i] < ys[j]
    requires forall i, j :: 0 <= i < j < |xs| ==> xs[i] < xs[j]
    ensures forall a, b :: 0 <= a < b < |Windows(ys, xs)| ==> RowMajorBefore(Windows(ys, xs)[a], Windows(ys, xs)[b])
    decreases |ys|
  {
    if ys != [] {
      var init, last := ys[..|ys| - 1], ys[|ys| - 1];
      assert forall i, j :: 0 <= i < j < |init| ==> init[i] == ys[i] && init[j] == ys[j];
      WindowsRowMajor(init, xs);
      WindowsCover(init, xs);
      var front, row := Windows(init, xs), RowWindows(last, xs);
      var ws := Windows(ys, xs);
      assert ws == front + row;
      forall a, b | 0 <= a < b < |ws|
        ensures RowMajorBefore(ws[a], ws[b])
      {
        if b >= |front| {
          assert ws[b] == row[b - |front|];
          assert ws[b].y == last;
          if a < |front| {
            assert ws[a] == front[a];
            var i :| 0 <= i < |init| && init[i] == front[a].y;
            assert ys[i] == init[i] && ys[|ys| - 1] == last;
            assert ys[i] < ys[|ys| - 1];
          } else {
            assert ws[a] == row[a - |front|];
            assert ws[a].x == xs[a - |front|] && ws[b].x == xs[b - |front|];
          }
        } else {
          assert ws[a] == front[a] && ws[b] == front[b];
        }
      }
    }
  }

  /** The label rectangle's left index: past the label offset and, with EWMA, past the margin too. */
  function LabelStartX(w: Window, labelOffset: (int, int), useEwma: bool): int
  {
    w.x + labelOffset.0 + (if useEwma then EwmaMargin else 0)
  }

  /** The label rectangle's right index: the window's right bound, back by the label offset. */
  function LabelEndX(w: Window, patchSize: (int, int), labelOffset: (int, int), useEwma: bool): int
  {
    w.x + ExtractWidth(patchSize.0, useEwma) - labelOffset.0
  }

  /**
   * A window that lies inside the grid with its right and bottom bounds
   * strictly inside it, so that the four label indices are axis indices.
   */
  predicate WindowFits(d: Diagram, w: Window, patchSize: (int, int), labelOffset: (int, int), useEwma: bool)
  {
    && d.Valid()
    && 0 <= labelOffset.0 <= patchSize.0
    && 0 <= labelOffset.1 <= patchSize.1
    && 0 <= w.x && w.x + ExtractWidth(patchSize.0, useEwma) < |d.xAxes|
    && 0 <= w.y && w.y + patchSize.1 < |d.yAxes|
  }

  /** The window's label rectangle, in volts, from the axis values at the shrunk bounds. */
  function LabelShape(d: Diagram, w: Window, patchSize: (int, int), labelOffset: (int, int), useEwma: bool): Polygon
    requires WindowFits(d, w, patchSize, labelOffset, useEwma)
  {
    Rectangle(d.xAxes[LabelStartX(w, labelOffset, useEwma)], d.yAxes[w.y + labelOffset.1],
              d.xAxes[LabelEndX(w, patchSize, labelOffset, useEwma)], d.yAxes[w.y + patchSize.1 - labelOffset.1])
  }

  /**
   * The generator's windows for a request. Each of them fits: in particular
   * every label index, including `end - label_offset`, is inside its axis.
   */
  function PatchWindows(d: Diagram, patchSize: (int, int), overlap: (int, int), labelOffset: (int, int), useEwma: bool)
    : (ws: seq<Window>)
    requires ValidRequest(d, patchSize, overlap, labelOffset, useEwma)
    ensures forall k :: 0 <= k < |ws| ==> WindowFits(d, ws[k], patchSize, labelOffset, useEwma)
    ensures forall k :: 0 <= k < |ws| ==>
      && 0 <= LabelStartX(ws[k], labelOffset, useEwma) < |d.xAxes|
      && 0 <= LabelEndX(ws[k], patchSize, labelOffset, useEwma) < |d.xAxes|
      && 0 <= ws[k].y + labelOffset.1 < |d.yAxes|
      && 0 <= ws[k].y + patchSize.1 - labelOffset.1 < |d.yAxes|
  {
    var ys, xs := RowStarts(d, patchSize, overlap), ColumnStarts(d, patchSize, overlap, useEwma);
    RangeBounds(0, |d.yAxes| - patchSize.1, patchSize.1 - overlap.1);
    RangeBounds(0, |d.xAxes| - ExtractWidth(patchSize.0, useEwma), ExtractWidth(patchSize.0, useEwma) - overlap.0);
    WindowsCover(ys, xs);
    Windows(ys, xs)
  }

  /**
   * The windows are exactly the grid points of the two ranges: a top-left
   * corner whose y is a multiple of `patch_size_y - overlap_y` below
   * `diagram_size_y - patch_size_y`, and whose x is a multiple of the x step
   * below `diagram_size_x` minus the extract width.
   */
  lemma PatchWindowsAreGridPoints(d: Diagram, patchSize: (int, int), overlap: (int, int), labelOffset: (int, int),
                                  useEwma: bool, w: Window)
    requires ValidRequest(d, patchSize, overlap, labelOffset, useEwma)
    ensures w in PatchWindows(d, patchSize, overlap, labelOffset, useEwma) <==>
      && 0 <= w.y < |d.yAxes| - patchSize.1 && w.y % (patchSize.1 - overlap.1) == 0
      && 0 <= w.x < |d.xAxes| - ExtractWidth(patchSize.0, useEwma)
      && w.x % (ExtractWidth(patchSize.0, useEwma) - overlap.0) == 0
  {
    var ys, xs := RowStarts(d, patchSize, overlap), ColumnStarts(d, patchSize, overlap, useEwma);
    assert PatchWindows(d, patchSize, overlap, labelOffset, useEwma) == Windows(ys, xs);
    RangeMembers(|d.yAxes| - patchSize.1, patchSize.1 - overlap.1, w.y);
    RangeMembers(|d.xAxes| - ExtractWidth(patchSize.0, useEwma), ExtractWidth(patchSize.0, useEwma) - overlap.0, w.x);
    WindowInWindows(ys, xs, w);
  }

  /**
   * The generator's windows come out in row-major order: each later window is
   * on a later row, or on the same row further right.
   */
  lemma PatchWindowsRowMajor(d: Diagram, patchSize: (int, int), overlap: (int, int), labelOffset: (int, int),
                             useEwma: bool)
    requires ValidRequest(d, patchSize, overlap, labelOffset, useEwma)
    ensures var ws := PatchWindows(d, patchSize, overlap, labelOffset, useEwma);
      forall a, b :: 0 <= a < b < |ws| ==> RowMajorBefore(ws[a], ws[b])
  {
    var width := ExtractWidth(patchSize.0, useEwma);
    var ys, xs := RowStarts(d, patchSize, overlap), ColumnStarts(d, patchSize, overlap, useEwma);
    RangeIncreasing(0, |d.yAxes| - patchSize.1, patchSize.1 - overlap.1);
    RangeIncreasing(0, |d.xAxes| - width, width - overlap.0);
    WindowsRowMajor(ys, xs);
    assert PatchWindows(d, patchSize, overlap, labelOffset, useEwma) == Windows(ys, xs);
  }

  /** A window is generated iff its row is a start row and its column a start column. */
  lemma WindowInWindows(ys: seq<int>, xs: seq<int>, w: Window)
    ensures w in Windows(ys, xs) <==> w.y in ys && w.x in xs
  {
    var ws := Windows(ys, xs);
    WindowsCover(ys, xs);
    if w in ws {
      var k :| 0 <= k < |ws| && ws[k] == w;
    }
    if w.y in ys && w.x in xs {
      assert Window(w.x, w.y) == w;
    }
  }

  /** The values under a fitting window: `size_y` rows of the extract width, from (x, y). */
  function WindowValues(d: Diagram, w: Window, patchSize: (int, int), labelOffset: (int, int), useEwma: bool)
    : (g: Grid)
    requires WindowFits(d, w, patchSize, labelOffset, useEwma)
    ensures |g| == patchSize.1
    ensures forall i :: 0 <= i < patchSize.1 ==> |g[i]| == ExtractWidth(patchSize.0, useEwma)
    ensures forall i, j :: 0 <= i < patchSize.1 && 0 <= j < ExtractWidth(patchSize.0, useEwma) ==>
      g[i][j] == d.values[w.y + i][w.x + j]
  {
    var width := ExtractWidth(patchSize.0, useEwma);
    seq(patchSize.1, i requires 0 <= i < patchSize.1 => d.values[w.y + i][w.x..w.x + width])
  }

  /** One generated item: the values under the window and its line label. */
  function PatchAt(d: Diagram, w: Window, patchSize: (int, int), labelOffset: (int, int), useEwma: bool,
                   intersects: (LineString, Polygon) -> bool): LabelledPatch
    requires WindowFits(d, w, patchSize, labelOffset, useEwma)
    requires d.transitionLines.Some?
  {
    LabelledPatch(WindowValues(d, w, patchSize, labelOffset, useEwma),
                  AnyIntersects(d.transitionLines.value, LabelShape(d, w, patchSize, labelOffset, useEwma), intersects))
  }

  /**
   * For a fitting window, the slice `values[y:y + size_y, x:x + width]` is
   * exactly the values under the window.
   */
  lemma SliceIsWindowValues(d: Diagram, w: Window, patchSize: (int, int), labelOffset: (int, int), useEwma: bool,
                            endX: int, endY: int)
    requires WindowFits(d, w, patchSize, labelOffset, useEwma)
    requires endX == w.x + ExtractWidth(patchSize.0, useEwma) && endY == w.y + patchSize.1
    ensures Slice2D(d.values, w.y, endY, w.x, endX) == WindowValues(d, w, patchSize, labelOffset, useEwma)
  {
    Slice2DInside(d.values, w.y, endY, w.x, endX);
  }

  /** A generated patch is the slice `values[start_y:end_y, start_x:end_x]` of its window. */
  lemma PatchAtSlice(d: Diagram, w: Window, patchSize: (int, int), labelOffset: (int, int), useEwma: bool,
                     intersects: (LineString, Polygon) -> bool)
    requires WindowFits(d, w, patchSize, labelOffset, useEwma)
    requires d.transitionLines.Some?
    ensures PatchAt(d, w, patchSize, labelOffset, useEwma, intersects).patch
         == Slice2D(d.values, w.y, w.y + patchSize.1, w.x, w.x + ExtractWidth(patchSize.0, useEwma))
  {
    SliceIsWindowValues(d, w, patchSize, labelOffset, useEwma, w.x + ExtractWidth(patchSize.0, useEwma),
                        w.y + patchSize.1);
  }

  /**
   * A generated patch has exactly `size_y` rows of `width` columns (the
   * patch width, plus the EWMA margin when it is used), read from the grid
   * starting at (x, y): the margin widens the patch on the right of `x`.
   */
  lemma PatchAtContents(d: Diagram, w: Window, patchSize: (int, int), labelOffset: (int, int), useEwma: bool,
                        intersects: (LineString, Polygon) -> bool)
    requires WindowFits(d, w, patchSize, labelOffset, useEwma)
    requires d.transitionLines.Some?
    ensures var p := PatchAt(d, w, patchSize, labelOffset, useEwma, intersects).patch;
      && |p| == patchSize.1
      && forall i :: 0 <= i < patchSize.1 ==>
           && |p[i]| == ExtractWidth(patchSize.0, useEwma)
           && forall j :: 0 <= j < ExtractWidth(patchSize.0, useEwma) ==> p[i][j] == d.values[w.y + i][w.x + j]
  {
    var values := WindowValues(d, w, patchSize, labelOffset, useEwma);
    assert PatchAt(d, w, patchSize, labelOffset, useEwma, intersects).patch == values;
  }

  /** A generated patch is labelled iff some transition line intersects its label rectangle. */
  lemma PatchAtLabel(d: Diagram, w: Window, patchSize: (int, int), labelOffset: (int, int), useEwma: bool,
                     intersects: (LineString, Polygon) -> bool)
    requires WindowFits(d, w, patchSize, labelOffset, useEwma)
    requires d.transitionLines.Some?
    ensures PatchAt(d, w, patchSize, labelOffset, useEwma, intersects).hasLine
        <==> exists i :: 0 <= i < |d.transitionLines.value| &&
                         intersects(d.transitionLines.value[i], LabelShape(d, w, patchSize, labelOffset, useEwma))
  {
  }

  /** `items` are, one for one and in order, the generated patches of the fitting windows `ws`. */
  predicate Generated(d: Diagram, ws: seq<Window>, items: seq<LabelledPatch>, patchSize: (int, int),
                      labelOffset: (int, int), useEwma: bool, intersects: (LineString, Polygon) -> bool)
  {
    && d.transitionLines.Some?
    && |items| == |ws|
    && forall k :: 0 <= k < |ws| ==>
      && WindowFits(d, ws[k], patchSize, labelOffset, useEwma)
      && items[k] == PatchAt(d, ws[k], patchSize, labelOffset, useEwma, intersects)
  }

  /** Generated items of consecutive window runs concatenate. */
  lemma GeneratedAppend(d: Diagram, ws1: seq<Window>, items1: seq<LabelledPatch>, ws2: seq<Window>,
                        items2: seq<LabelledPatch>, patchSize: (int, int), labelOffset: (int, int), useEwma: bool,
                        intersects: (LineString, Polygon) -> bool)
    requires Generated(d, ws1, items1, patchSize, labelOffset, useEwma, intersects)
    requires Generated(d, ws2, items2, patchSize, labelOffset, useEwma, intersects)
    ensures Generated(d, ws1 + ws2, items1 + items2, patchSize, labelOffset, useEwma, intersects)
  {
    forall k | |ws1| <= k < |ws1| + |ws2|
      ensures WindowFits(d, (ws1 + ws2)[k], patchSize, labelOffset, useEwma)
      ensures (items1 + items2)[k] == PatchAt(d, (ws1 + ws2)[k], patchSize, labelOffset, useEwma, intersects)
    {
      assert (items1 + items2)[k] == items2[k - |ws1|] && (ws1 + ws2)[k] == ws2[k - |ws1|];
    }
  }

  /** One more start column adds its window at the end of the row. */
  lemma RowWindowsStep(y: int, xs: seq<int>, ix: nat)
    requires ix < |xs|
    ensures RowWindows(y, xs[..ix + 1]) == RowWindows(y, xs[..ix]) + [Window(xs[ix], y)]
  {
  }

  /** One more start row adds that row's windows at the end. */
  lemma WindowsStep(ys: seq<int>, xs: seq<int>, iy: nat)
    requires iy < |ys|
    ensures Windows(ys[..iy + 1], xs) == Windows(ys[..iy], xs) + RowWindows(ys[iy], xs)
  {
    assert ys[..iy + 1][..iy] == ys[..iy];
  }

  /** The label rectangle of a fitting window, from the axis values the generator reads. */
  lemma LabelShapeAt(d: Diagram, w: Window, patchSize: (int, int), labelOffset: (int, int), useEwma: bool,
                     startXV: real, endXV: real, startYV: real, endYV: real)
    requires WindowFits(d, w, patchSize, labelOffset, useEwma)
    requires startXV == d.xAxes[w.x + labelOffset.0 + (if useEwma then EwmaMargin else 0)]
    requires endXV == d.xAxes[w.x + ExtractWidth(patchSize.0, useEwma) - labelOffset.0]
    requires startYV == d.yAxes[w.y + labelOffset.1] && endYV == d.yAxes[w.y + patchSize.1 - labelOffset.1]
    ensures LabelShape(d, w, patchSize, labelOffset, useEwma) == Rectangle(startXV, startYV, endXV, endYV)
  {
  }

  /**
   * The body of the inner loop of `get_patches`: the slice and the label of
   * the window at (patchX, patchY), given the row's label bounds in volts.
   */
  method ExtractPatch(d: Diagram, patchX: int, patchY: int, startYV: real, endYV: real, patchSize: (int, int),
                      labelOffset: (int, int), useEwma: bool, intersects: (LineString, Polygon) -> bool)
    returns (item: LabelledPatch)
    requires WindowFits(d, Window(patchX, patchY), patchSize, labelOffset, useEwma)
    requires d.transitionLines.Some?
    requires startYV == d.yAxes[patchY + labelOffset.1] && endYV == d.yAxes[patchY + patchSize.1 - labelOffset.1]
    ensures item == PatchAt(d, Window(patchX, patchY), patchSize, labelOffset, useEwma, intersects)
  {
    var sizeX, sizeY := patchSize.0, patchSize.1;
    var offsetX := labelOffset.0;
    if useEwma {
      sizeX := sizeX + EwmaMargin;
    }
    var startY, endY := patchY, patchY + sizeY;
    var startX, endX := patchX, patchX + sizeX;
    var startXV := d.xAxes[startX + offsetX + (if useEwma then EwmaMargin else 0)];
    var endXV := d.xAxes[endX - offsetX];
    var shape := Rectangle(startXV, startYV, endXV, endYV);
    var patch := Slice2D(d.values, startY, endY, startX, endX);
    var hasLine := AnyIntersects(d.transitionLines.value, shape, intersects);
    item := LabelledPatch(patch, hasLine);
    ghost var w := Window(patchX, patchY);
    SliceIsWindowValues(d, w, patchSize, labelOffset, useEwma, endX, endY);
    LabelShapeAt(d, w, patchSize, labelOffset, useEwma, startXV, endXV, startYV, endYV);
  }

  /**
   * The inner loop of `get_patches`: the items of the windows on start row
   * `patchY`, left to right.
   */
  method RowPatches(d: Diagram, patchY: int, patchSize: (int, int), overlap: (int, int), labelOffset: (int, int),
                    useEwma: bool, intersects: (LineString, Polygon) -> bool)
    returns (row: seq<LabelledPatch>)
    requires ValidRequest(d, patchSize, overlap, labelOffset, useEwma)
    requires d.transitionLines.Some?
    requires 0 <= patchY && patchY + patchSize.1 < |d.yAxes|
    ensures Generated(d, RowWindows(patchY, ColumnStarts(d, patchSize, overlap, useEwma)), row,
                      patchSize, labelOffset, useEwma, intersects)
  {
    var sizeX, sizeY := patchSize.0, patchSize.1;
    var overlapX := overlap.0;
    var offsetX, offsetY := labelOffset.0, labelOffset.1;
    var diagramSizeX := |d.xAxes|;
    if useEwma {
      sizeX := sizeX + EwmaMargin;
    }
    assert sizeX == ExtractWidth(patchSize.0, useEwma);
    ghost var xs := PyRange(0, diagramSizeX - sizeX, sizeX - overlapX);
    RangeBounds(0, diagramSizeX - sizeX, sizeX - overlapX);
    var startY, endY := patchY, patchY + sizeY;
    var startYV, endYV := d.yAxes[startY + offsetY], d.yAxes[endY - offsetY];
    row := [];
    ghost var ix := 0;
    var patchX := 0;
    while patchX < diagramSizeX - sizeX
      invariant 0 <= ix <= |xs|
      invariant ix < |xs| <==> patchX < diagramSizeX - sizeX
      invariant ix < |xs| ==> patchX == xs[ix]
      invariant Generated(d, RowWindows(patchY, xs[..ix]), row, patchSize, labelOffset, useEwma, intersects)
      decreases |xs| - ix
    {
      var item := ExtractPatch(d, patchX, patchY, startYV, endYV, patchSize, labelOffset, useEwma, intersects);
      RowWindowsStep(patchY, xs, ix);
      GeneratedAppend(d, RowWindows(patchY, xs[..ix]), row, [Window(patchX, patchY)], [item],
                      patchSize, labelOffset, useEwma, intersects);
      row := row + [item];
      RangeNext(0, diagramSizeX - sizeX, sizeX - overlapX, ix);
      ix := ix + 1;
      patchX := patchX + (sizeX - overlapX);
    }
    assert xs[..ix] == xs;
  }

  /**
   * `get_patches`, with the generator's output collected in order: one item
   * per window of `PatchWindows`, in generation order.
   */
  method GetPatches(d: Diagram, patchSize: (int, int), overlap: (int, int), labelOffset: (int, int), useEwma: bool,
                    intersects: (LineString, Polygon) -> bool)
    returns (patches: seq<LabelledPatch>)
    requires ValidRequest(d, patchSize, overlap, labelOffset, useEwma)
    requires d.transitionLines.Some?
    ensures var ws := PatchWindows(d, patchSize, overlap, labelOffset, useEwma);
      && |patches| == |ws|
      && forall k :: 0 <= k < |ws| ==> patches[k] == PatchAt(d, ws[k], patchSize, labelOffset, useEwma, intersects)
  {
    var sizeY := patchSize.1;
    var overlapY := overlap.1;
    var diagramSizeY := |d.yAxes|;
    ghost var ys, xs := PyRange(0, diagramSizeY - sizeY, sizeY - overlapY), ColumnStarts(d, patchSize, overlap, useEwma);
    RangeBounds(0, diagramSizeY - sizeY, sizeY - overlapY);
    patches := [];
    ghost var done: seq<Window> := [];
    ghost var iy := 0;
    var patchY := 0;
    while patchY < diagramSizeY - sizeY
      invariant 0 <= iy <= |ys|
      invariant iy < |ys| <==> patchY < diagramSizeY - sizeY
      invariant iy < |ys| ==> patchY == ys[iy]
      invariant done == Windows(ys[..iy], xs)
      invariant Generated(d, done, patches, patchSize, labelOffset, useEwma, intersects)
      decreases |ys| - iy
    {
      var row := RowPatches(d, patchY, patchSize, overlap, labelOffset, useEwma, intersects);
      WindowsStep(ys, xs, iy);
      ghost var ws := RowWindows(patchY, xs);
      GeneratedAppend(d, done, patches, ws, row, patchSize, labelOffset, useEwma, intersects);
      patches := patches + row;
      done := done + ws;
      RangeNext(0, diagramSizeY - sizeY, sizeY - overlapY, iy);
      iy := iy + 1;
      patchY := patchY + (sizeY - overlapY);
    }
    assert ys[..iy] == ys;
    assert done == PatchWindows(d, patchSize, overlap, labelOffset, useEwma);
  }

  /**
   * A window's label is `is_line_in_patch` at the window, moved right by the
   * EWMA margin when it is used, with the unwidened patch size and the label
   * offsets: the margin widens the extracted values only.
   */
  lemma LabelIsLineInPatch(d: Diagram, w: Window, patchSize: (int, int), labelOffset: (int, int), useEwma: bool,
                           intersects: (LineString, Polygon) -> bool)
    requires WindowFits(d, w, patchSize, labelOffset, useEwma)
    requires d.transitionLines.Some?
    ensures IsLineInPatch(d, w.x + (if useEwma then EwmaMargin else 0), w.y, patchSize.0, patchSize.1,
                          labelOffset.0, labelOffset.1, intersects)
         == Ok(PatchAt(d, w, patchSize, labelOffset, useEwma, intersects).hasLine)
  {
  }

  /**
   * A grid whose sides are exact multiples `ky` and `kx` of the patch size,
   * with no overlap and no EWMA margin, gives `ky - 1` rows of `kx - 1`
   * windows: the last window that would fit exactly is never produced.
   */
  lemma ExactFitDropsLastWindow(d: Diagram, patchSize: (int, int), ky: nat, kx: nat)
    requires d.Valid() && patchSize.0 > 0 && patchSize.1 > 0 && ky >= 1 && kx >= 1
    requires |d.yAxes| == ky * patchSize.1 && |d.xAxes| == kx * patchSize.0
    ensures |RowStarts(d, patchSize, (0, 0))| == ky - 1
    ensures |ColumnStarts(d, patchSize, (0, 0), false)| == kx - 1
    ensures |PatchWindows(d, patchSize, (0, 0), (0, 0), false)| == (ky - 1) * (kx - 1)
  {
    MultipleLessOne(ky, patchSize.1);
    MultipleLessOne(kx, patchSize.0);
    RangeCount(0, ky - 1, patchSize.1);
    RangeCount(0, kx - 1, patchSize.0);
    WindowsCount(RowStarts(d, patchSize, (0, 0)), ColumnStarts(d, patchSize, (0, 0), false));
  }

  /** `k` multiples less one multiple, as the range bound reads it. */
  lemma MultipleLessOne(k: int, p: int)
    ensures k * p - p == 0 + (k - 1) * p
  {
  }

  /** A 20x20 grid cut into 10x10 patches without overlap yields the single window at (0, 0). */
  lemma TwentyByTwentyGivesOnePatch(d: Diagram)
    requires d.Valid() && |d.yAxes| == 20 && |d.xAxes| == 20
    ensures PatchWindows(d, (10, 10), (0, 0), (0, 0), false) == [Window(0, 0)]
  {
    assert PyRange(10, 10, 10) == [];
    assert PyRange(0, 10, 10) == [0];
    assert Windows([0], [0]) == Windows([], [0]) + RowWindows(0, [0]);
  }
}
