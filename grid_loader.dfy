/**
 * `_load_interpolated_csv`: a stability diagram stored as a compact CSV
 * matrix whose first row is the header `(x_start, y_start, step)` and whose
 * other rows are the measured values. The text parsing (`np.loadtxt`) is
 * taken as done: the input is the parsed matrix, row by row.
 */
module GridLoader {
  import opened Wrappers
  import opened PyOps
  import opened DiagramOffline

  /** The three results of the loader: the x axis, the y axis and the grid of values. */
  datatype LoadedCsv = LoadedCsv(x: seq<real>, y: seq<real>, values: Grid)

  /** Every row has the width of the first: what `np.loadtxt` accepts as a matrix. */
  predicate Rectangular(m: Grid)
  {
    forall i :: 0 <= i < |m| ==> |m[i]| == |m[0]|
  }

  /** `np.flip(values, axis=0)`: the rows in reverse order. */
  function Reverse<T>(s: seq<T>): (r: seq<T>)
    ensures |r| == |s|
    ensures forall i :: 0 <= i < |s| ==> r[i] == s[|s| - 1 - i]
  {
    if s == [] then [] else Reverse(s[1..]) + [s[0]]
  }

  /** Flipping twice gives the rows back. */
  lemma ReverseInvolution<T>(s: seq<T>)
    ensures Reverse(Reverse(s)) == s
  {
    var r := Reverse(Reverse(s));
    forall i | 0 <= i < |s|
      ensures r[i] == s[i]
    {
      assert r[i] == Reverse(s)[|s| - 1 - i];
    }
  }

  /** `np.arange(n) * step + start`. */
  function Axis(n: nat, step: real, start: real): seq<real>
  {
    seq(n, i requires 0 <= i < n => i as real * step + start)
  }

  /** An axis starts at `start` and every next value is `step` further. */
  lemma AxisArithmetic(n: nat, step: real, start: real)
    ensures |Axis(n, step, start)| == n
    ensures n > 0 ==> Axis(n, step, start)[0] == start
    ensures forall i :: 0 <= i < n - 1 ==> Axis(n, step, start)[i + 1] == Axis(n, step, start)[i] + step
  {
    var a := Axis(n, step, start);
    forall i | 0 <= i < n - 1
      ensures a[i + 1] == a[i] + step
    {
      calc {
        a[i + 1];
        (i + 1) as real * step + start;
        { assert (i + 1) as real * step == i as real * step + step; }
        a[i] + step;
      }
    }
  }

  /**
   * The loader. A ragged matrix is refused by the parser (ValueError); a matrix
   * of fewer than two rows has no header row to index (`np.loadtxt` returns a
   * scalar row or nothing), and a header narrower than three has no step:
   * both raise IndexError.
   */
  function LoadInterpolatedCsv(compact: Grid, invertYAxis: bool): (r: Result<LoadedCsv, PyError>)
    ensures !Rectangular(compact) ==> r == Err(ValueError)
    ensures Rectangular(compact) && (|compact| < 2 || |compact[0]| < 3) ==> r == Err(IndexError)
    ensures r.Ok? <==> Rectangular(compact) && |compact| >= 2 && |compact[0]| >= 3
  {
    if !Rectangular(compact) then Err(ValueError)
    else if |compact| < 2 || |compact[0]| < 3 then Err(IndexError)
    else
      var xStart, yStart, step := compact[0][0], compact[0][1], compact[0][2];
      var body := compact[1..];
      var values := if invertYAxis then Reverse(body) else body;
      Ok(LoadedCsv(Axis(|values[0]|, step, xStart), Axis(|values|, step, yStart), values))
  }

  /**
   * A loaded matrix drops exactly the header row; its rows are the file's data
   * rows, bottom-up when `invertYAxis` holds; there is one x value per column
   * and one y value per row, `i * step` past the header's start values.
   */
  lemma LoadedContents(compact: Grid, invertYAxis: bool)
    requires Rectangular(compact) && |compact| >= 2 && |compact[0]| >= 3
    ensures var c := LoadInterpolatedCsv(compact, invertYAxis).value;
      && |c.values| == |c.y| == |compact| - 1
      && |c.x| == |compact[0]|
      && (forall i :: 0 <= i < |c.values| ==> |c.values[i]| == |c.x|)
      && (forall i :: 0 <= i < |c.values| ==> c.values[i] == compact[if invertYAxis then |compact| - 1 - i else i + 1])
      && (forall i :: 0 <= i < |c.x| ==> c.x[i] == i as real * compact[0][2] + compact[0][0])
      && (forall j :: 0 <= j < |c.y| ==> c.y[j] == j as real * compact[0][2] + compact[0][1])
  {
    var c := LoadInterpolatedCsv(compact, invertYAxis).value;
    forall i | 0 <= i < |c.values|
      ensures c.values[i] == compact[if invertYAxis then |compact| - 1 - i else i + 1]
    {
      if invertYAxis {
        assert c.values[i] == compact[1..][|compact| - 2 - i];
      }
    }
  }

  /**
   * The file layout the loader reads: the header `(x_start, y_start, step)`,
   * padded with zeros to the grid's width, then the rows of the grid, flipped
   * when `invertYAxis` holds.
   */
  function CompactCsv(values: Grid, xStart: real, yStart: real, step: real, invertYAxis: bool): (m: Grid)
    requires |values| >= 1 && |values[0]| >= 3
    ensures |m| == |values| + 1 && |m[0]| == |values[0]| && m[0][..3] == [xStart, yStart, step]
  {
    var header := [xStart, yStart, step] + seq(|values[0]| - 3, _ => 0.0);
    [header] + (if invertYAxis then Reverse(values) else values)
  }

  /**
   * Loading a compact matrix written with the same orientation gives back
   * the grid, and the axes that start at the header's values and advance by
   * its step.
   */
  lemma LoadCompactRoundTrip(values: Grid, xStart: real, yStart: real, step: real, invertYAxis: bool)
    requires |values| >= 1 && |values[0]| >= 3 && Rectangular(values)
    ensures LoadInterpolatedCsv(CompactCsv(values, xStart, yStart, step, invertYAxis), invertYAxis)
         == Ok(LoadedCsv(Axis(|values[0]|, step, xStart), Axis(|values|, step, yStart), values))
  {
    var m := CompactCsv(values, xStart, yStart, step, invertYAxis);
    assert m[0][0] == xStart && m[0][1] == yStart && m[0][2] == step by {
      assert m[0][..3][0] == m[0][0] && m[0][..3][1] == m[0][1] && m[0][..3][2] == m[0][2];
    }
    assert m[1..] == (if invertYAxis then Reverse(values) else values);
    assert Rectangular(m) by {
      forall i | 0 <= i < |m|
        ensures |m[i]| == |m[0]|
      {
        if i > 0 {
          if invertYAxis {
            assert m[i] == values[|values| - 1 - (i - 1)];
          } else {
            assert m[i] == values[i - 1];
          }
        }
      }
    }
    if invertYAxis {
      ReverseInvolution(values);
    }
  }
}
