/**
 * `_load_lines_annotations` and `_load_charge_annotations`: turning the
 * labelled objects of one diagram (pixel coordinates) into shapely objects
 * in volt space, one per object and in input order. The pixel-to-volt
 * conversion (`_coord_to_volt`) and the regime lookup (`ChargeRegime(name)`)
 * are defined elsewhere and are passed in as functions.
 */
module AnnotationLoader {
  import opened Wrappers
  import opened PyOps
  import opened Geometry
  import opened DiagramOffline

  /** A labelled vertex, in pixels. */
  datatype PixelPoint = PixelPoint(x: real, y: real)

  /**
   * One labelled object: its name, and the vertex lists it carries under the
   * `line` and `polygon` keys (absent keys are `None`).
   */
  datatype AnnotationObject = AnnotationObject(name: string, line: Option<seq<PixelPoint>>,
                                               polygon: Option<seq<PixelPoint>>)

  /**
   * `_coord_to_volt(coords, min_v, max_v, pixel_size, snap, is_y)`: the
   * coordinates of one axis in volts, given the axis' first and last values.
   */
  type CoordToVolt = (seq<real>, real, real, real, int, bool) -> seq<real>

  function PixelXs(ps: seq<PixelPoint>): seq<real>
  {
    seq(|ps|, k requires 0 <= k < |ps| => ps[k].x)
  }

  function PixelYs(ps: seq<PixelPoint>): seq<real>
  {
    seq(|ps|, k requires 0 <= k < |ps| => ps[k].y)
  }

  /**
   * The vertices of an object in volts: the x coordinates converted against
   * the x axis' ends, the y coordinates against the y axis' ends (as a y
   * axis), zipped. Reading an end of an empty axis raises IndexError.
   */
  function VoltVertices(ps: seq<PixelPoint>, x: seq<real>, y: seq<real>, pixelSize: real, snap: int,
                        toVolt: CoordToVolt): Result<seq<VoltPoint>, PyError>
  {
    var x0, x1 := PyIndex(x, 0), PyIndex(x, -1);
    if x0.None? || x1.None? then Err(IndexError)
    else
      var vx := toVolt(PixelXs(ps), x0.value, x1.value, pixelSize, snap, false);
      var y0, y1 := PyIndex(y, 0), PyIndex(y, -1);
      if y0.None? || y1.None? then Err(IndexError)
      else
        var vy := toVolt(PixelYs(ps), y0.value, y1.value, pixelSize, snap, true);
        Ok(ZipPoints(vx, vy))
  }

  /**
   * Converting vertices fails, with IndexError, exactly when an axis is
   * empty; otherwise the i-th vertex pairs the i-th converted x with the
   * i-th converted y, the axes' first and last values being the ends.
   */
  lemma VoltVerticesMeaning(ps: seq<PixelPoint>, x: seq<real>, y: seq<real>, pixelSize: real, snap: int,
                            toVolt: CoordToVolt)
    ensures var r := VoltVertices(ps, x, y, pixelSize, snap, toVolt);
      && (r.Ok? <==> |x| > 0 && |y| > 0)
      && (r.Err? ==> r.error == IndexError)
      && (r.Ok? ==>
            var vx := toVolt(PixelXs(ps), x[0], x[|x| - 1], pixelSize, snap, false);
            var vy := toVolt(PixelYs(ps), y[0], y[|y| - 1], pixelSize, snap, true);
            && |r.value| == Min(|vx|, |vy|)
            && forall k :: 0 <= k < |r.value| ==> r.value[k] == VoltPoint(vx[k], vy[k]))
  {
  }

  /** One transition line: an object without a `line` key raises KeyError. */
  function LineOf(obj: AnnotationObject, x: seq<real>, y: seq<real>, pixelSize: real, snap: int,
                  toVolt: CoordToVolt): Result<LineString, PyError>
  {
    if obj.line.None? then Err(KeyError)
    else
      match VoltVertices(obj.line.value, x, y, pixelSize, snap, toVolt)
      case Err(e) => Err(e)
      case Ok(vs) => Ok(LineString(vs))
  }

  /**
   * One charge area: the polygon through the converted vertices, tagged with
   * the regime named by the object. An object without a `polygon` key raises
   * KeyError, a name that is not a regime raises ValueError.
   */
  function AreaOf(obj: AnnotationObject, x: seq<real>, y: seq<real>, pixelSize: real, snap: int,
                  toVolt: CoordToVolt, parseRegime: string -> Option<ChargeRegime>): Result<ChargeArea, PyError>
  {
    if obj.polygon.None? then Err(KeyError)
    else
      match VoltVertices(obj.polygon.value, x, y, pixelSize, snap, toVolt)
      case Err(e) => Err(e)
      case Ok(vs) =>
        var regime := parseRegime(obj.name);
        if regime.None? then Err(ValueError) else Ok(ChargeArea(regime.value, Polygon(vs)))
  }

  /**
   * One line: an object without a `line` key raises KeyError, an empty axis
   * raises IndexError, and otherwise the line runs through the zipped
   * converted vertices, in the object's order.
   */
  lemma LineOfOutcomes(obj: AnnotationObject, x: seq<real>, y: seq<real>, pixelSize: real, snap: int,
                       toVolt: CoordToVolt)
    ensures var r := LineOf(obj, x, y, pixelSize, snap, toVolt);
      && (r.Ok? <==> obj.line.Some? && |x| > 0 && |y| > 0)
      && (obj.line.None? ==> r == Err(KeyError))
      && (obj.line.Some? && r.Err? ==> r.error == IndexError)
      && (r.Ok? ==>
            var vx := toVolt(PixelXs(obj.line.value), x[0], x[|x| - 1], pixelSize, snap, false);
            var vy := toVolt(PixelYs(obj.line.value), y[0], y[|y| - 1], pixelSize, snap, true);
            r.value.vertices == ZipPoints(vx, vy))
  {
    if obj.line.Some? {
      VoltVerticesMeaning(obj.line.value, x, y, pixelSize, snap, toVolt);
    }
  }

  /**
   * One area: an object without a `polygon` key raises KeyError, an empty
   * axis raises IndexError, a name that is no regime raises ValueError, and
   * otherwise the area is the named regime with the polygon through the
   * zipped converted vertices.
   */
  lemma AreaOfOutcomes(obj: AnnotationObject, x: seq<real>, y: seq<real>, pixelSize: real, snap: int,
                       toVolt: CoordToVolt, parseRegime: string -> Option<ChargeRegime>)
    ensures var r := AreaOf(obj, x, y, pixelSize, snap, toVolt, parseRegime);
      && (r.Ok? <==> obj.polygon.Some? && |x| > 0 && |y| > 0 && parseRegime(obj.name).Some?)
      && (obj.polygon.None? ==> r == Err(KeyError))
      && (obj.polygon.Some? && (|x| == 0 || |y| == 0) ==> r == Err(IndexError))
      && (obj.polygon.Some? && |x| > 0 && |y| > 0 && parseRegime(obj.name).None? ==> r == Err(ValueError))
      && (r.Ok? ==>
            var vx := toVolt(PixelXs(obj.polygon.value), x[0], x[|x| - 1], pixelSize, snap, false);
            var vy := toVolt(PixelYs(obj.polygon.value), y[0], y[|y| - 1], pixelSize, snap, true);
            r.value == ChargeArea(parseRegime(obj.name).value, Polygon(ZipPoints(vx, vy))))
  {
    if obj.polygon.Some? {
      VoltVerticesMeaning(obj.polygon.value, x, y, pixelSize, snap, toVolt);
    }
  }

  /** The lines of a run of objects can only raise KeyError or IndexError. */
  lemma {:induction false} LinesOfErrors(objs: seq<AnnotationObject>, x: seq<real>, y: seq<real>, pixelSize: real,
                                         snap: int, toVolt: CoordToVolt)
    ensures var r := LinesOf(objs, x, y, pixelSize, snap, toVolt);
      r.Err? ==> r.error == KeyError || r.error == IndexError
    decreases |objs|
  {
    if objs != [] {
      LinesOfErrors(objs[..|objs| - 1], x, y, pixelSize, snap, toVolt);
      LineOfOutcomes(objs[|objs| - 1], x, y, pixelSize, snap, toVolt);
    }
  }

  /** The areas of a run of objects can only raise KeyError, IndexError or ValueError. */
  lemma {:induction false} AreasOfErrors(objs: seq<AnnotationObject>, x: seq<real>, y: seq<real>, pixelSize: real,
                                         snap: int, toVolt: CoordToVolt, parseRegime: string -> Option<ChargeRegime>)
    ensures var r := AreasOf(objs, x, y, pixelSize, snap, toVolt, parseRegime);
      r.Err? ==> r.error == KeyError || r.error == IndexError || r.error == ValueError
    decreases |objs|
  {
    if objs != [] {
      AreasOfErrors(objs[..|objs| - 1], x, y, pixelSize, snap, toVolt, parseRegime);
      AreaOfOutcomes(objs[|objs| - 1], x, y, pixelSize, snap, toVolt, parseRegime);
    }
  }

  /** The lines of a sequence of objects, processed front to back: the first failure is raised. */
  function LinesOf(objs: seq<AnnotationObject>, x: seq<real>, y: seq<real>, pixelSize: real, snap: int,
                   toVolt: CoordToVolt): Result<seq<LineString>, PyError>
    decreases |objs|
  {
    if objs == [] then Ok([])
    else
      match LinesOf(objs[..|objs| - 1], x, y, pixelSize, snap, toVolt)
      case Err(e) => Err(e)
      case Ok(done) =>
        match LineOf(objs[|objs| - 1], x, y, pixelSize, snap, toVolt)
        case Err(e) => Err(e)
        case Ok(l) => Ok(done + [l])
  }

  /** The areas of a sequence of objects, processed front to back: the first failure is raised. */
  function AreasOf(objs: seq<AnnotationObject>, x: seq<real>, y: seq<real>, pixelSize: real, snap: int,
                   toVolt: CoordToVolt, parseRegime: string -> Option<ChargeRegime>)
    : Result<seq<ChargeArea>, PyError>
    decreases |objs|
  {
    if objs == [] then Ok([])
    else
      match AreasOf(objs[..|objs| - 1], x, y, pixelSize, snap, toVolt, parseRegime)
      case Err(e) => Err(e)
      case Ok(done) =>
        match AreaOf(objs[|objs| - 1], x, y, pixelSize, snap, toVolt, parseRegime)
        case Err(e) => Err(e)
        case Ok(a) => Ok(done + [a])
  }

  /**
   * The lines succeed iff every object converts; then there is one line per
   * object, in order. Otherwise the error is that of the first object that
   * fails.
   */
  lemma {:induction false} LinesOfOneToOne(objs: seq<AnnotationObject>, x: seq<real>, y: seq<real>, pixelSize: real,
                                           snap: int, toVolt: CoordToVolt)
    ensures var r := LinesOf(objs, x, y, pixelSize, snap, toVolt);
      r.Ok? <==> forall i :: 0 <= i < |objs| ==> LineOf(objs[i], x, y, pixelSize, snap, toVolt).Ok?
    ensures var r := LinesOf(objs, x, y, pixelSize, snap, toVolt);
      r.Ok? ==> |r.value| == |objs| &&
                forall i :: 0 <= i < |objs| ==> r.value[i] == LineOf(objs[i], x, y, pixelSize, snap, toVolt).value
    ensures var r := LinesOf(objs, x, y, pixelSize, snap, toVolt);
      r.Err? ==> exists i :: 0 <= i < |objs| &&
                             LineOf(objs[i], x, y, pixelSize, snap, toVolt) == Err(r.error) &&
                             forall j :: 0 <= j < i ==> LineOf(objs[j], x, y, pixelSize, snap, toVolt).Ok?
    decreases |objs|
  {
    if objs != [] {
      var init := objs[..|objs| - 1];
      LinesOfOneToOne(init, x, y, pixelSize, snap, toVolt);
      assert forall i :: 0 <= i < |init| ==> init[i] == objs[i];
    }
  }

  /**
   * The areas succeed iff every object converts; then there is one area per
   * object, in order. Otherwise the error is that of the first object that
   * fails.
   */
  lemma {:induction false} AreasOfOneToOne(objs: seq<AnnotationObject>, x: seq<real>, y: seq<real>, pixelSize: real,
                                           snap: int, toVolt: CoordToVolt, parseRegime: string -> Option<ChargeRegime>)
    ensures var r := AreasOf(objs, x, y, pixelSize, snap, toVolt, parseRegime);
      r.Ok? <==> forall i :: 0 <= i < |objs| ==> AreaOf(objs[i], x, y, pixelSize, snap, toVolt, parseRegime).Ok?
    ensures var r := AreasOf(objs, x, y, pixelSize, snap, toVolt, parseRegime);
      r.Ok? ==> |r.value| == |objs| &&
                forall i :: 0 <= i < |objs| ==> r.value[i] == AreaOf(objs[i], x, y, pixelSize, snap, toVolt, parseRegime).value
    ensures var r := AreasOf(objs, x, y, pixelSize, snap, toVolt, parseRegime);
      r.Err? ==> exists i :: 0 <= i < |objs| &&
                             AreaOf(objs[i], x, y, pixelSize, snap, toVolt, parseRegime) == Err(r.error) &&
                             forall j :: 0 <= j < i ==> AreaOf(objs[j], x, y, pixelSize, snap, toVolt, parseRegime).Ok?
    decreases |objs|
  {
    if objs != [] {
      var init := objs[..|objs| - 1];
      AreasOfOneToOne(init, x, y, pixelSize, snap, toVolt, parseRegime);
      assert forall i :: 0 <= i < |init| ==> init[i] == objs[i];
    }
  }

  /** Once a prefix fails, the whole sequence fails with the same error. */
  lemma {:induction false} LinesOfPrefixErr(objs: seq<AnnotationObject>, k: nat, x: seq<real>, y: seq<real>,
                                            pixelSize: real, snap: int, toVolt: CoordToVolt)
    requires k <= |objs| && LinesOf(objs[..k], x, y, pixelSize, snap, toVolt).Err?
    ensures LinesOf(objs, x, y, pixelSize, snap, toVolt) == LinesOf(objs[..k], x, y, pixelSize, snap, toVolt)
    decreases |objs| - k
  {
    if k < |objs| {
      assert objs[..k + 1][..k] == objs[..k];
      LinesOfPrefixErr(objs, k + 1, x, y, pixelSize, snap, toVolt);
    } else {
      assert objs[..k] == objs;
    }
  }

  /** Once a prefix fails, the whole sequence fails with the same error. */
  lemma {:induction false} AreasOfPrefixErr(objs: seq<AnnotationObject>, k: nat, x: seq<real>, y: seq<real>,
                                            pixelSize: real, snap: int, toVolt: CoordToVolt,
                                            parseRegime: string -> Option<ChargeRegime>)
    requires k <= |objs| && AreasOf(objs[..k], x, y, pixelSize, snap, toVolt, parseRegime).Err?
    ensures AreasOf(objs, x, y, pixelSize, snap, toVolt, parseRegime)
         == AreasOf(objs[..k], x, y, pixelSize, snap, toVolt, parseRegime)
    decreases |objs| - k
  {
    if k < |objs| {
      assert objs[..k + 1][..k] == objs[..k];
      AreasOfPrefixErr(objs, k + 1, x, y, pixelSize, snap, toVolt, parseRegime);
    } else {
      assert objs[..k] == objs;
    }
  }

  /** `_load_lines_annotations`: appends one line per object, in order. */
  method LoadLinesAnnotations(lines: seq<AnnotationObject>, x: seq<real>, y: seq<real>, pixelSize: real, snap: int,
                              toVolt: CoordToVolt)
    returns (r: Result<seq<LineString>, PyError>)
    ensures r == LinesOf(lines, x, y, pixelSize, snap, toVolt)
  {
    var processed := [];
    var i := 0;
    while i < |lines|
      invariant 0 <= i <= |lines|
      invariant LinesOf(lines[..i], x, y, pixelSize, snap, toVolt) == Ok(processed)
    {
      assert lines[..i + 1][..i] == lines[..i];
      var line := LineOf(lines[i], x, y, pixelSize, snap, toVolt);
      if line.Err? {
        LinesOfPrefixErr(lines, i + 1, x, y, pixelSize, snap, toVolt);
        return Err(line.error);
      }
      processed := processed + [line.value];
      i := i + 1;
    }
    assert lines[..i] == lines;
    return Ok(processed);
  }

  /** `_load_charge_annotations`: appends one (regime, polygon) area per object, in order. */
  method LoadChargeAnnotations(chargeAreas: seq<AnnotationObject>, x: seq<real>, y: seq<real>, pixelSize: real,
                               snap: int, toVolt: CoordToVolt, parseRegime: string -> Option<ChargeRegime>)
    returns (r: Result<seq<ChargeArea>, PyError>)
    ensures r == AreasOf(chargeAreas, x, y, pixelSize, snap, toVolt, parseRegime)
  {
    var processed := [];
    var i := 0;
    while i < |chargeAreas|
      invariant 0 <= i <= |chargeAreas|
      invariant AreasOf(chargeAreas[..i], x, y, pixelSize, snap, toVolt, parseRegime) == Ok(processed)
    {
      assert chargeAreas[..i + 1][..i] == chargeAreas[..i];
      var area := AreaOf(chargeAreas[i], x, y, pixelSize, snap, toVolt, parseRegime);
      if area.Err? {
        AreasOfPrefixErr(chargeAreas, i + 1, x, y, pixelSize, snap, toVolt, parseRegime);
        return Err(area.error);
      }
      processed := processed + [area.value];
      i := i + 1;
    }
    assert chargeAreas[..i] == chargeAreas;
    return Ok(processed);
  }
}
