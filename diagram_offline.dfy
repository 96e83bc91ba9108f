/**
 * One stability diagram (`DiagramOffline`): its two voltage axes, the grid of
 * measured values, an optional normalised copy of the grid, and its optional
 * annotations. The queries here are `get_patch`, `is_line_in_patch` and
 * `get_charge`.
 */
module DiagramOffline {
  import opened Wrappers
  import opened PyOps
  import opened Geometry

  /** A two-dimensional tensor of measurements, row by row (row index = y, column index = x). */
  type Grid = seq<seq<real>>

  /** The charge regime tag of an area; `Unknown` is the UNKNOWN sentinel. */
  datatype ChargeRegime = Unknown | Regime(tag: string)

  /** One charge area annotation: its regime and its polygon in volt space. */
  datatype ChargeArea = ChargeArea(regime: ChargeRegime, area: Polygon)

  datatype Diagram = Diagram(
    name: string,
    xAxes: seq<real>,
    yAxes: seq<real>,
    values: Grid,
    valuesNorm: Option<Grid>,
    transitionLines: Option<seq<LineString>>,
    chargeAreas: Option<seq<ChargeArea>>)
  {
    /** The grid has one row per y-axis value and one column per x-axis value. */
    predicate Valid()
    {
      && |values| == |yAxes|
      && forall r :: 0 <= r < |values| ==> |values[r]| == |xAxes|
    }
  }

  /** The `normalization` setting: 'train-set', 'patch', or anything else (no normalisation). */
  datatype Normalization = TrainSet | PerPatch | NoNormalization

  /**
   * `g[rowLo:rowHi, colLo:colHi]` on a two-dimensional tensor: the row slice,
   * and in each of its rows the column slice.
   */
  function Slice2D(g: Grid, rowLo: int, rowHi: int, colLo: int, colHi: int): Grid
  {
    var rows := PySlice(g, rowLo, rowHi);
    seq(|rows|, i requires 0 <= i < |rows| => PySlice(rows[i], colLo, colHi))
  }

  /**
   * For any bounds, negative ones included, a two-dimensional slice holds
   * the rows between the two resolved row bounds, and its row `i` is grid
   * row `SliceBound(rowLo) + i` sliced by the column bounds.
   */
  lemma Slice2DRows(g: Grid, rowLo: int, rowHi: int, colLo: int, colHi: int)
    ensures var p, lo := Slice2D(g, rowLo, rowHi, colLo, colHi), SliceBound(rowLo, |g|);
      && |p| == Max(0, SliceBound(rowHi, |g|) - lo)
      && forall i :: 0 <= i < |p| ==> lo + i < |g| && p[i] == PySlice(g[lo + i], colLo, colHi)
  {
    var rows, lo, hi := PySlice(g, rowLo, rowHi), SliceBound(rowLo, |g|), SliceBound(rowHi, |g|);
    if lo < hi {
      assert rows == g[lo..hi];
    } else {
      assert rows == [];
    }
  }

  /** A tensor with no element (`numel() == 0`): no rows, or only empty ones. */
  predicate NoElements(g: Grid)
  {
    forall i :: 0 <= i < |g| ==> g[i] == []
  }

  /**
   * For non-negative bounds, a two-dimensional slice holds the rows from
   * `rowLo` up to `min(rowHi, |g|)`, and in each of them the columns from
   * `colLo` up to `min(colHi, width)`, element by element.
   */
  lemma Slice2DWindow(g: Grid, rowLo: int, rowHi: int, colLo: int, colHi: int)
    ensures 0 <= rowLo && 0 <= rowHi && 0 <= colLo && 0 <= colHi ==>
      var p := Slice2D(g, rowLo, rowHi, colLo, colHi);
      && |p| == Max(0, Min(rowHi, |g|) - rowLo)
      && forall i :: 0 <= i < |p| ==>
        && rowLo + i < |g|
        && |p[i]| == Max(0, Min(colHi, |g[rowLo + i]|) - colLo)
        && forall j :: 0 <= j < |p[i]| ==> p[i][j] == g[rowLo + i][colLo + j]
  {
    if 0 <= rowLo && 0 <= rowHi && 0 <= colLo && 0 <= colHi {
      var rows := PySlice(g, rowLo, rowHi);
      PySliceElements(g, rowLo, rowHi);
      forall i | 0 <= i < |rows|
        ensures forall j :: 0 <= j < |PySlice(rows[i], colLo, colHi)| ==>
          PySlice(rows[i], colLo, colHi)[j] == g[rowLo + i][colLo + j]
      {
        PySliceElements(rows[i], colLo, colHi);
      }
    }
  }

  /**
   * With the row bounds inside the grid and the column bounds inside every
   * row they select, row `i` of the slice is row `rowLo + i` cut to the
   * column bounds.
   */
  lemma Slice2DInside(g: Grid, rowLo: int, rowHi: int, colLo: int, colHi: int)
    requires 0 <= rowLo <= rowHi <= |g| && 0 <= colLo <= colHi
    requires forall r :: rowLo <= r < rowHi ==> colHi <= |g[r]|
    ensures |Slice2D(g, rowLo, rowHi, colLo, colHi)| == rowHi - rowLo
    ensures forall i :: 0 <= i < rowHi - rowLo ==> Slice2D(g, rowLo, rowHi, colLo, colHi)[i] == g[rowLo + i][colLo..colHi]
  {
    PySliceInside(g, rowLo, rowHi);
    var rows := PySlice(g, rowLo, rowHi);
    forall i | 0 <= i < rowHi - rowLo
      ensures PySlice(rows[i], colLo, colHi) == g[rowLo + i][colLo..colHi]
    {
      assert rows[i] == g[rowLo + i];
      PySliceInside(rows[i], colLo, colHi);
    }
  }

  /**
   * `get_patch`: the sub-grid whose top-left corner is `(coordX, coordY)`, taken
   * from the normalised grid in 'train-set' mode, rescaled by the patch's own
   * extremes in 'patch' mode (`rescale`, floating point, stays abstract), and
   * from the raw grid otherwise. Out-of-range bounds are clipped, as slicing does.
   * In 'patch' mode, `min()` of a patch with no element raises RuntimeError.
   */
  function GetPatch(d: Diagram, coordX: int, coordY: int, sizeX: int, sizeY: int, normalized: bool,
                    normalization: Normalization, rescale: Grid -> Grid): (r: Result<Grid, PyError>)
    ensures normalized && normalization == TrainSet ==> (r.Err? <==> d.valuesNorm.None?)
    ensures normalized && normalization == TrainSet && d.valuesNorm.None? ==> r == Err(TypeError)
    ensures normalized && normalization == TrainSet && d.valuesNorm.Some? ==>
      r == Ok(Slice2D(d.valuesNorm.value, coordY, coordY + sizeY, coordX, coordX + sizeX))
    ensures normalized && normalization == PerPatch ==>
      var patch := Slice2D(d.values, coordY, coordY + sizeY, coordX, coordX + sizeX);
      && (r.Err? <==> NoElements(patch))
      && (r.Err? ==> r.error == RuntimeError)
      && (r.Ok? ==> r.value == rescale(patch))
    ensures !normalized || normalization == NoNormalization ==>
      r == Ok(Slice2D(d.values, coordY, coordY + sizeY, coordX, coordX + sizeX))
  {
    if normalized && normalization == TrainSet then
      if d.valuesNorm.None? then Err(TypeError)
      else Ok(Slice2D(d.valuesNorm.value, coordY, coordY + sizeY, coordX, coordX + sizeX))
    else if normalized && normalization == PerPatch then
      var patch := Slice2D(d.values, coordY, coordY + sizeY, coordX, coordX + sizeX);
      if NoElements(patch) then Err(RuntimeError) else Ok(rescale(patch))
    else
      Ok(Slice2D(d.values, coordY, coordY + sizeY, coordX, coordX + sizeX))
  }

  /**
   * In 'patch' mode, a patch whose top row is the grid's height is empty, and
   * its `min()` raises RuntimeError.
   */
  lemma PerPatchEmptyRaises(d: Diagram, coordX: int, sizeX: int, sizeY: int, rescale: Grid -> Grid)
    requires 0 <= sizeY
    ensures GetPatch(d, coordX, |d.values|, sizeX, sizeY, true, PerPatch, rescale) == Err(RuntimeError)
  {
    assert PySlice(d.values, |d.values|, |d.values| + sizeY) == [];
  }

  /**
   * Without normalisation, a patch at non-negative coordinates of a valid
   * diagram holds the rows from `coordY` up to `min(coordY + sizeY, height)`
   * and, in each, the columns from `coordX` up to `min(coordX + sizeX, width)`
   * of the raw grid, element by element.
   */
  lemma GetPatchRaw(d: Diagram, coordX: int, coordY: int, sizeX: int, sizeY: int, normalized: bool,
                    normalization: Normalization, rescale: Grid -> Grid)
    requires !normalized || normalization == NoNormalization
    requires d.Valid() && 0 <= coordX && 0 <= coordY && 0 <= sizeX && 0 <= sizeY
    ensures var r := GetPatch(d, coordX, coordY, sizeX, sizeY, normalized, normalization, rescale);
      && r.Ok?
      && |r.value| == Max(0, Min(coordY + sizeY, |d.yAxes|) - coordY)
      && forall i :: 0 <= i < |r.value| ==>
        && |r.value[i]| == Max(0, Min(coordX + sizeX, |d.xAxes|) - coordX)
        && forall j :: 0 <= j < |r.value[i]| ==> r.value[i][j] == d.values[coordY + i][coordX + j]
  {
    Slice2DWindow(d.values, coordY, coordY + sizeY, coordX, coordX + sizeX);
  }

  /**
   * `is_line_in_patch`: looks up the voltages of the patch bounds shrunk by the
   * offsets (Python indexing: a negative index counts from the end, any other
   * index outside the axis raises IndexError), then tells whether some
   * transition line intersects the rectangle they span. Iterating over absent
   * lines raises TypeError.
   */
  function IsLineInPatch(d: Diagram, coordX: int, coordY: int, sizeX: int, sizeY: int,
                         offsetX: int, offsetY: int,
                         intersects: (LineString, Polygon) -> bool): (r: Result<bool, PyError>)
    ensures !(-|d.xAxes| <= coordX + offsetX < |d.xAxes|) ==> r == Err(IndexError)
    ensures !(-|d.yAxes| <= coordY + offsetY < |d.yAxes|) ==> r == Err(IndexError)
    ensures !(-|d.xAxes| <= coordX + sizeX - offsetX < |d.xAxes|) ==> r == Err(IndexError)
    ensures !(-|d.yAxes| <= coordY + sizeY - offsetY < |d.yAxes|) ==> r == Err(IndexError)
    ensures d.transitionLines.None? ==> r.Err?
    ensures d.transitionLines == Some([]) ==> r != Ok(true)
    ensures (d.transitionLines.Some?
             && -|d.xAxes| <= coordX + offsetX < |d.xAxes| && -|d.yAxes| <= coordY + offsetY < |d.yAxes|
             && -|d.xAxes| <= coordX + sizeX - offsetX < |d.xAxes|
             && -|d.yAxes| <= coordY + sizeY - offsetY < |d.yAxes|) ==>
      var shape := Rectangle(PyIndex(d.xAxes, coordX + offsetX).value, PyIndex(d.yAxes, coordY + offsetY).value,
                             PyIndex(d.xAxes, coordX + sizeX - offsetX).value,
                             PyIndex(d.yAxes, coordY + sizeY - offsetY).value);
      && r.Ok?
      && (r.value <==> exists i :: 0 <= i < |d.transitionLines.value| && intersects(d.transitionLines.value[i], shape))
  {
    var startX := PyIndex(d.xAxes, coordX + offsetX);
    var startY := PyIndex(d.yAxes, coordY + offsetY);
    var endX := PyIndex(d.xAxes, coordX + sizeX - offsetX);
    var endY := PyIndex(d.yAxes, coordY + sizeY - offsetY);
    if startX.None? || startY.None? || endX.None? || endY.None? then Err(IndexError)
    else if d.transitionLines.None? then Err(TypeError)
    else
      var shape := Rectangle(startX.value, startY.value, endX.value, endY.value);
      Ok(AnyIntersects(d.transitionLines.value, shape, intersects))
  }

  /**
   * `get_charge`: the regime at a pixel. A pixel whose coordinates are not
   * valid Python indices of the axes is UNKNOWN; otherwise the point of volt
   * space at those indices is looked up in the charge areas in list order, the
   * first area containing it gives the regime, and no area gives UNKNOWN.
   */
  method GetCharge(d: Diagram, coordX: int, coordY: int, contains: (Polygon, VoltPoint) -> bool)
    returns (r: Result<ChargeRegime, PyError>)
    ensures coordX >= |d.xAxes| || coordY >= |d.yAxes| ==> r == Ok(Unknown)
    ensures coordX < -|d.xAxes| || coordY < -|d.yAxes| ==> r == Ok(Unknown)
    ensures d.chargeAreas.None? && -|d.xAxes| <= coordX < |d.xAxes| && -|d.yAxes| <= coordY < |d.yAxes| ==>
      r == Err(TypeError)
    ensures d.chargeAreas.Some? && -|d.xAxes| <= coordX < |d.xAxes| && -|d.yAxes| <= coordY < |d.yAxes| ==>
      var areas := d.chargeAreas.value;
      var point := VoltPoint(PyIndex(d.xAxes, coordX).value, PyIndex(d.yAxes, coordY).value);
      && r.Ok?
      && ((exists i :: 0 <= i < |areas| && contains(areas[i].area, point)
              && (forall j :: 0 <= j < i ==> !contains(areas[j].area, point)) && r.value == areas[i].regime)
          || ((forall i :: 0 <= i < |areas| ==> !contains(areas[i].area, point)) && r.value == Unknown))
  {
    var voltX := PyIndex(d.xAxes, coordX);
    var voltY := PyIndex(d.yAxes, coordY);
    if voltX.None? || voltY.None? {
      return Ok(Unknown);
    }
    if d.chargeAreas.None? {
      return Err(TypeError);
    }
    var point := VoltPoint(voltX.value, voltY.value);
    var areas := d.chargeAreas.value;
    var i := 0;
    while i < |areas|
      invariant 0 <= i <= |areas|
      invariant forall j :: 0 <= j < i ==> !contains(areas[j].area, point)
    {
      if contains(areas[i].area, point) {
        return Ok(areas[i].regime);
      }
      i := i + 1;
    }
    return Ok(Unknown);
  }
}
