# Offline stability diagrams: a Dafny model

This project models the core of `DiagramOffline`, the offline stability-diagram
dataset of a quantum-dot autotuning code base. A stability diagram is a grid of
current measurements over two gate voltages. It has an x axis and a y axis of
voltages, and optional annotations: transition lines, and charge areas tagged
with a charge regime.

The model covers:

- **Patch queries.** `get_patch` slices a sub-grid, clipped to the grid.
  `is_line_in_patch` tells whether a transition line crosses a patch shrunk by
  offsets. `get_charge` returns the charge regime at a pixel.
- **The sliding window of `get_patches`.** Two nested `range` loops, y outer and
  x inner, yield each patch with a label saying whether a transition line
  crosses it. With `use_ewma`, the extracted patch is three pixels wider and the
  label rectangle starts three pixels further right.
- **`_load_interpolated_csv`.** A compact matrix whose first row is the header
  `(x_start, y_start, step)` becomes the two axes and the grid, flipped upside
  down.
- **`_load_lines_annotations` and `_load_charge_annotations`.** Labelled objects
  in pixels become lines and polygons in volts, one per object, in order.
- **`load_diagrams`.** Every file of one archive folder goes through an ordered
  cascade: white list, label record, QDSD project, pixel-size and dot-count
  classifications, dot type, lines, areas. The first check that fails skips the
  entry and bumps exactly one of three counters (no label, excluded, filtered).
  An entry that passes every check becomes a diagram. An exception raised on
  the way ends the whole load.

## Files

- `py_ops.dfy` holds the Python built-ins with Python's semantics: negative
  indices, clipped slices, `range`, `filter`, `next`, `Path.stem`, `str.upper`
  and substring `in`.
- `geometry.dfy` holds the shapely objects as vertex lists. `intersects` and
  `contains` are function parameters.
- `diagram_offline.dfy` holds the diagram and its three queries.
- `patch_generator.dfy` holds `get_patches`: the nested loops as methods with
  loop invariants, proved against `PatchWindows` and `PatchAt`.
- `grid_loader.dfy` holds `_load_interpolated_csv`.
- `annotation_loader.dfy` holds the two annotation loaders: loops proved against
  `LinesOf` and `AreasOf`.
- `diagram_set_loader.dfy` holds `load_diagrams`.
  - The loop with its counters is a method proved against `Tally(Outcomes(...))`.
  - `EntryOutcome` states the cascade for one entry.
  - The loop body is split into `ProcessAt`, `ProcessEntry`, `LoadEntry` and
    `Count`. `ProcessEntry` follows the early `continue`s of the source, and
    `Count` does the counter bookkeeping.

## The last window

The loops of `get_patches` stop strictly below `diagram_size - patch_size`, so
the last window that would fit exactly is never produced: a 20×20 grid cut into
10×10 patches without overlap yields the single window (0, 0). See
`TwentyByTwentyGivesOnePatch` and `ExactFitDropsLastWindow`.

## Model

| member | source | states |
|---|---|---|
| PyOps.PyIndex | datasets/diagram_offline.py:158-159 | an index reads an element iff it lies in [-len, len), and then it reads the element at the index modulo the length, so a negative index counts from the end |
| PyOps.SliceBound | datasets/diagram_offline.py:90 | a slice bound is clipped to the length: a non-negative bound becomes min(bound, length), a negative one counts from the end, max(0, bound + length) |
| PyOps.PySlice | datasets/diagram_offline.py:90 | with non-negative bounds, a slice has max(0, min(hi, len) - lo) elements |
| PyOps.PySliceElements | datasets/diagram_offline.py:90 | with a non-negative start, element k of a slice is element lo + k of the sequence |
| PyOps.PySliceInside | datasets/diagram_offline.py:137 | with bounds inside the sequence, a Python slice is the plain subsequence |
| PyOps.RangeNext | datasets/diagram_offline.py:113 | element k of a range is followed by another iff one more step stays below stop, and that element is one step on |
| PyOps.RangeBounds | datasets/diagram_offline.py:113 | every value of range(start, stop, step) lies in [start, stop) |
| PyOps.RangeIncreasing | datasets/diagram_offline.py:113 | a range with a positive step is strictly increasing |
| PyOps.RangeElements | datasets/diagram_offline.py:113 | value k of a range is start + k*step and below stop, and one more step would reach stop |
| PyOps.RangeMembers | datasets/diagram_offline.py:113 | v is in range(0, stop, step) iff 0 <= v < stop and v is a multiple of step |
| PyOps.RangeMemberIsMultiple | datasets/diagram_offline.py:113 | a value of range(0, stop, step) is a multiple of step in [0, stop) |
| PyOps.MultipleIsRangeMember | datasets/diagram_offline.py:113 | a multiple of step in [0, stop) is a value of range(0, stop, step) |
| PyOps.RangeCount | datasets/diagram_offline.py:113 | a range whose span is m steps has m values |
| PyOps.LastIndexOf | datasets/diagram_offline.py:293 | the result is the last position of the character, or None when it does not occur |
| PyOps.Stem | datasets/diagram_offline.py:293 | Path.stem is a prefix of the name; when the last dot is neither the first nor the last character, the stem is the name up to that dot, and otherwise the whole name |
| PyOps.StemOfCompressedCsv | datasets/diagram_offline.py:293 | the stem of 'd.csv.gz' is 'd.csv': only the last suffix is dropped |
| PyOps.FirstIndex | datasets/diagram_offline.py:306-323 | `next(filter(p, s))` gives the first position whose element passes p, or None (StopIteration) iff no element passes |
| PyOps.FilterMembers | datasets/diagram_offline.py:352 | an element is kept by filter iff it is an element that passes the test |
| PyOps.FilterNone | datasets/diagram_offline.py:352 | when no element passes the test, filter keeps nothing |
| PyOps.FilterOrder | datasets/diagram_offline.py:352 | filter keeps order and multiplicity: the kept elements are those at the increasing positions that pass the test, and every passing position is among them |
| PyOps.ContainsSubstring | datasets/diagram_offline.py:365 | `needle in hay` holds iff the needle occurs at some position of the hay |
| Geometry.ZipPoints | datasets/diagram_offline.py:439 | zip pairs coordinates up to the shorter sequence, point k from the k-th x and y |
| Geometry.AnyIntersects | datasets/diagram_offline.py:139 | any() over the lines holds iff some line intersects the shape |
| DiagramOffline.Slice2DWindow | datasets/diagram_offline.py:84 | a 2D slice with non-negative bounds holds the clipped rows and columns, element by element |
| DiagramOffline.Slice2DInside | datasets/diagram_offline.py:137 | with bounds inside the grid, row i of a 2D slice is row lo + i cut to the column bounds |
| DiagramOffline.Slice2DRows | datasets/diagram_offline.py:81-90 | for any bounds, negative ones included, a 2D slice holds the rows between the resolved row bounds, and its row i is the grid row at the resolved start plus i, sliced by the column bounds |
| DiagramOffline.GetPatch | datasets/diagram_offline.py:64-90 | train-set mode slices the normalised grid and raises TypeError iff there is none; 'patch' mode raises RuntimeError iff the raw slice has no element, and otherwise rescales the raw slice; without normalisation or in an unknown mode, the result is the raw slice |
| DiagramOffline.PerPatchEmptyRaises | datasets/diagram_offline.py:82-85 | in 'patch' mode, a patch whose top row is the grid's height is empty and raises RuntimeError |
| DiagramOffline.GetPatchRaw | datasets/diagram_offline.py:75-90 | a raw patch holds rows coordY to min(coordY+sizeY, H) and columns coordX to min(coordX+sizeX, W) of the grid, element by element |
| DiagramOffline.IsLineInPatch | datasets/diagram_offline.py:174-203 | an index outside [-len, len) of its axis raises IndexError and missing lines raise; otherwise the result is true iff some line intersects the rectangle whose corners are the axis values at coord+offset and coord+size-offset, negative indices counting from the end; no lines give false |
| DiagramOffline.GetCharge | datasets/diagram_offline.py:149-172 | a pixel outside the axes is UNKNOWN; negative indices wrap; otherwise the regime of the first area in list order containing the point, or UNKNOWN when none does; missing areas raise |
| PatchGenerator.PatchWindows | datasets/diagram_offline.py:113-128 | every window fits the grid, and every axis index of its label rectangle, including end - label_offset, is inside its axis |
| PatchGenerator.WindowsCount | datasets/diagram_offline.py:113-120 | there is one window per pair of a start row and a start column |
| PatchGenerator.WindowsCover | datasets/diagram_offline.py:113-120 | every window pairs a start row with a start column, and every such pair is a window |
| PatchGenerator.WindowInWindows | datasets/diagram_offline.py:113-120 | a window is generated iff its row is a start row and its column a start column |
| PatchGenerator.WindowsRowMajor | datasets/diagram_offline.py:113-121 | windows come out y outer and x inner: a later window is on a later row, or further right on the same row |
| PatchGenerator.PatchWindowsRowMajor | datasets/diagram_offline.py:113-121 | the generator's windows come y outer and x inner: each later window is on a later row, or further right on the same row |
| PatchGenerator.PatchWindowsAreGridPoints | datasets/diagram_offline.py:113-120 | a window is generated iff y is a multiple of the y step below H - size_y and x a multiple of the x step below W - width |
| PatchGenerator.ExactFitDropsLastWindow | datasets/diagram_offline.py:113-120 | a grid exactly ky×kx patches large, with no overlap, gives ky-1 rows of kx-1 windows |
| PatchGenerator.TwentyByTwentyGivesOnePatch | datasets/diagram_offline.py:113-120 | a 20×20 grid with 10×10 patches gives the single window (0, 0) |
| PatchGenerator.WindowValues | datasets/diagram_offline.py:137 | the values under a window are size_y rows of the extract width, read from (x, y) |
| PatchGenerator.SliceIsWindowValues | datasets/diagram_offline.py:137 | for a fitting window, values[y:y+size_y, x:x+width] is exactly the values under the window |
| PatchGenerator.PatchAtSlice | datasets/diagram_offline.py:123-137 | a generated patch is values[start_y:end_y, start_x:end_x] |
| PatchGenerator.PatchAtContents | datasets/diagram_offline.py:108-137 | a generated patch has size_y rows of size_x (+3 with EWMA) columns, starting at start_x |
| PatchGenerator.PatchAtLabel | datasets/diagram_offline.py:125-139 | a patch is labelled iff some line intersects its label rectangle |
| PatchGenerator.LabelIsLineInPatch | datasets/diagram_offline.py:125-139 | a window's label is is_line_in_patch at x shifted by 3 with EWMA, the unwidened size and the label offsets |
| PatchGenerator.ExtractPatch | datasets/diagram_offline.py:121-147 | the inner-loop body yields the patch and label of its window |
| PatchGenerator.RowPatches | datasets/diagram_offline.py:120-147 | the inner loop yields, in order, one item per start column of its row |
| PatchGenerator.GetPatches | datasets/diagram_offline.py:92-147 | the generator yields one item per window, in generation order, each the window's patch and label |
| GridLoader.Reverse | datasets/diagram_offline.py:412 | flipping keeps the length and puts row i at position n-1-i |
| GridLoader.ReverseInvolution | datasets/diagram_offline.py:412 | flipping twice gives the rows back |
| GridLoader.AxisArithmetic | datasets/diagram_offline.py:415-416 | an axis has n values, starts at start and advances by step |
| GridLoader.LoadInterpolatedCsv | datasets/diagram_offline.py:393-418 | a ragged matrix raises ValueError; fewer than two rows or a header narrower than three raises IndexError; it succeeds otherwise |
| GridLoader.LoadedContents | datasets/diagram_offline.py:404-418 | the header row is dropped; row i is data row n-2-i when inverted, row i+1 otherwise; len(x) is the width, len(y) the height, x[i] = i*step + x_start and y[j] = j*step + y_start |
| GridLoader.CompactCsv | datasets/diagram_offline.py:404-406 | the compact layout has one more row than the grid and starts with the header |
| GridLoader.LoadCompactRoundTrip | datasets/diagram_offline.py:404-418 | loading a grid written in the compact layout with the same orientation gives back the grid and the axes at the header's start and step |
| AnnotationLoader.VoltVerticesMeaning | datasets/diagram_offline.py:436-439 | converting vertices raises IndexError iff an axis is empty; otherwise vertex k pairs the k-th converted x and y |
| AnnotationLoader.LineOfOutcomes | datasets/diagram_offline.py:435-440 | one line: an object without a `line` key raises KeyError, an empty axis raises IndexError, and otherwise the line runs through the zipped converted vertices |
| AnnotationLoader.AreaOfOutcomes | datasets/diagram_offline.py:460-466 | one area: an object without a `polygon` key raises KeyError, an empty axis IndexError, a name that is no regime ValueError; otherwise the named regime with the polygon through the zipped converted vertices |
| AnnotationLoader.LinesOfErrors | datasets/diagram_offline.py:434-440 | the line loop can only raise KeyError or IndexError |
| AnnotationLoader.AreasOfErrors | datasets/diagram_offline.py:459-466 | the area loop can only raise KeyError, IndexError or ValueError |
| AnnotationLoader.LinesOfOneToOne | datasets/diagram_offline.py:420-442 | the lines succeed iff every object converts, then one line per object in order; otherwise the first failing object's error |
| AnnotationLoader.AreasOfOneToOne | datasets/diagram_offline.py:444-468 | the areas succeed iff every object converts, then one (regime, polygon) per object in order; otherwise the first failing object's error |
| AnnotationLoader.LinesOfPrefixErr | datasets/diagram_offline.py:435-440 | once a prefix of the objects fails, the whole loop fails with that error |
| AnnotationLoader.AreasOfPrefixErr | datasets/diagram_offline.py:460-466 | once a prefix of the objects fails, the whole loop fails with that error |
| AnnotationLoader.LoadLinesAnnotations | datasets/diagram_offline.py:420-442 | the loop appends exactly the lines of LinesOf, or stops at the first error |
| AnnotationLoader.LoadChargeAnnotations | datasets/diagram_offline.py:444-468 | the loop appends exactly the areas of AreasOf, or stops at the first error |
| DiagramSetLoader.FolderPath | datasets/diagram_offline.py:280 | the folder path is the pixel size in mV, then 'mV/', then the research group, then '/' |
| DiagramSetLoader.LabelIndexLastWins | datasets/diagram_offline.py:268-274 | an image has a record iff some row labels it, and the record is the last such row |
| DiagramSetLoader.BuildLabelIndex | datasets/diagram_offline.py:268-274 | the label dict built in file order is LabelIndex of the rows |
| DiagramSetLoader.QdsdOutcomes | datasets/diagram_offline.py:306-314 | no QDSD project (any letter case) gives a missing label, and only then; the first QDSD project raises IndexError when its `labels` is empty and otherwise gives its first labelling's annotations |
| DiagramSetLoader.PixelSizeOutcomes | datasets/diagram_offline.py:316-319 | no `pixel_size_volt` classification gives a missing label; on the first one, an answer that is not a text answer raises KeyError and a text that is not a number raises ValueError |
| DiagramSetLoader.DotCountOutcomes | datasets/diagram_offline.py:321-325 | once the pixel size reads as a number: no `nb_dot` classification gives a missing label; on the first one, an answer that is not a radio answer raises KeyError, and otherwise the result is the pixel size and whether the choice is 'single' |
| DiagramSetLoader.LineObjectsMembers | datasets/diagram_offline.py:347-352 | an object is passed to the line loader iff it carries one of the line names |
| DiagramSetLoader.LineObjectsOrder | datasets/diagram_offline.py:347-352 | the line objects are passed in their order and multiplicity: exactly the objects at the increasing positions that carry a line name |
| DiagramSetLoader.ElectronObjectsMembers | datasets/diagram_offline.py:365 | an object is passed to the area loader iff its name contains 'electron' |
| DiagramSetLoader.ElectronObjectsOrder | datasets/diagram_offline.py:365 | the area objects are passed in their order and multiplicity, which decides the first match of get_charge: exactly the objects at the increasing positions whose name contains 'electron' |
| DiagramSetLoader.ProcessEntry | datasets/diagram_offline.py:292-375 | the loop body's outcome for one entry is the cascade's verdict EntryOutcome |
| DiagramSetLoader.LoadEntry | datasets/diagram_offline.py:338-375 | the steps inside the opened entry give LoadedOutcome |
| DiagramSetLoader.LoadedOutcomeKinds | datasets/diagram_offline.py:338-375 | the steps inside the opened entry never exclude or filter; a matrix that does not load raises its error; the only exceptions are IndexError, KeyError and ValueError; a loaded diagram is named after the stem |
| DiagramSetLoader.EntryOutcomeRaises | datasets/diagram_offline.py:292-375 | an entry raises only once it is on the white list and has a record; a first QDSD project with empty `labels` raises IndexError rather than being skipped; the only exceptions are IndexError, KeyError and ValueError |
| DiagramSetLoader.Outcomes | datasets/diagram_offline.py:292 | one outcome per archive entry |
| DiagramSetLoader.OutcomesAt | datasets/diagram_offline.py:292 | the k-th outcome is the cascade's verdict on the k-th entry |
| DiagramSetLoader.ProcessAt | datasets/diagram_offline.py:292-375 | the loop body at position i yields the i-th outcome |
| DiagramSetLoader.TallyStep | datasets/diagram_offline.py:292-375 | one more entry moves the tally by one Step |
| DiagramSetLoader.TallyPrefixErr | datasets/diagram_offline.py:306-340 | an exception in a prefix ends the whole load with that exception |
| DiagramSetLoader.Count | datasets/diagram_offline.py:295-375 | after an entry that does not raise, the counters and the list are those of Step |
| DiagramSetLoader.LoadEntries | datasets/diagram_offline.py:287-391 | the loop over the entries returns the tally of their outcomes |
| DiagramSetLoader.LoadDiagrams | datasets/diagram_offline.py:244-391 | a missing folder raises ValueError; otherwise the result is the tally of the folder's outcomes under the label dict |
| DiagramSetLoader.LoadedOfFilter | datasets/diagram_offline.py:374-375 | the appended diagrams are those of the loaded outcomes, in order |
| DiagramSetLoader.LoadedPositionsMeaning | datasets/diagram_offline.py:374-375 | the positions of the loaded entries are increasing, cover all of them, and the k-th holds the k-th diagram |
| DiagramSetLoader.TallyMeaning | datasets/diagram_offline.py:287-391 | the load ends normally iff no entry raises, and then holds the loaded diagrams in order and the count of each skip; otherwise it raises the first entry's exception |
| DiagramSetLoader.OutcomesPartition | datasets/diagram_offline.py:295-375 | without exceptions, the three skip counts plus the loaded diagrams add up to the number of outcomes |
| DiagramSetLoader.LoadPartition | datasets/diagram_offline.py:287-375 | nb_no_label + nb_excluded + nb_filtered + len(diagrams) equals the number of entries |
| DiagramSetLoader.LoadKeepsArchiveOrder | datasets/diagram_offline.py:292-375 | the diagrams come from increasing entry positions, and every entry that loads is among them |
| DiagramSetLoader.ExcludedIff | datasets/diagram_offline.py:295-297 | an entry is excluded iff its stem is not on a white list in force |
| DiagramSetLoader.NoRecordIsNoLabel | datasets/diagram_offline.py:299-303 | a white-listed entry whose stem.png has no record is a missing label |
| DiagramSetLoader.MissingLabelIsNoLabel | datasets/diagram_offline.py:306-330 | no QDSD project, or no pixel_size_volt, is a missing label; no nb_dot is a missing label or an exception, never filtered |
| DiagramSetLoader.FilteredIff | datasets/diagram_offline.py:332-335 | an entry is filtered iff it passes the white list, record, QDSD and classification checks and its dot type is not the requested one |
| DiagramSetLoader.EmptyLinesIsNoLabel | datasets/diagram_offline.py:347-359 | once the matrix loads, an entry asked for lines with no object named after a line label is a missing label |
| DiagramSetLoader.EmptyAreasIsNoLabel | datasets/diagram_offline.py:361-372 | once the matrix loads and any requested lines are found, an entry asked for areas with no 'electron' object is a missing label |
| DiagramSetLoader.LoadedDiagramIsWellFormed | datasets/diagram_offline.py:338-375 | a loaded diagram is named after the stem, has a grid that matches its axes and no normalised copy, and has non-empty lines and areas exactly when they were asked for |

## Left out

- Shapely is not modelled. `LineString` and `Polygon` are vertex lists, and
  `intersects` and `contains` are function parameters. Its validity errors on
  degenerate shapes are not modelled.
- `_coord_to_volt` and `ChargeRegime(name)` are defined in files that are not
  part of this model. They become the parameters `toVolt` and `parseRegime`;
  `parseRegime` returns None where the enum raises ValueError.
- `float(text)` becomes the parameter `parseFloat`.
- Floating point is not modelled. Values, axes and steps are exact reals, and
  the cast to a float32 tensor is not modelled.
- `GetPatch`: the 'patch' normalisation (`(patch - min) / (max - min)`) is an
  abstract `rescale` parameter, because it is float arithmetic. Its division
  by zero on a constant patch gives NaN or infinity in the tensor, and that is
  not modelled. The RuntimeError of `min()` on an empty patch is modelled.
- `normalize_diagrams`, `to` and the tensor device are left out: they are float
  and torch specifics.
- `get_random_starting_point` is left out: it uses `randrange` and a base-class
  method that is not part of this model.
- `plot`, `plot_results`, `__str__` and the logging are left out. The counters
  are returned in `LoadReport` rather than logged.
- File, zip, gzip, JSON and `np.loadtxt` parsing are left out.
  - The label file is a sequence of already-read records.
  - The archive is a map from folder path to entries, each with its parsed matrix.
  - The folder's listing order is taken as the entries' order.
  - Only the final path component of an entry's name is kept.
- `FolderPath`: takes the already-formatted text of `pixel_size * 1000`; the
  float formatting is not modelled.
- `LoadDiagrams`: the KeyErrors modelled are those of a classification answer
  of the wrong kind, and of an annotation object without its `line` or
  `polygon` key. Records are assumed to carry the other keys they are read by
  (`data_row`, `external_id`, `projects`, `name`, `labels`, `annotations`,
  `classifications`, `objects`, and `x`/`y` in every vertex). Errors opening or
  decompressing an entry are not modelled.
- `GetPatches`: requires label offsets between 0 and the patch size, positive
  steps on both axes, and transition lines present. The model does not cover
  the source's behaviour outside these:
  - a zero step raises ValueError;
  - a negative step gives a descending or empty range;
  - a label offset outside [0, patch size] can give a negative axis index, which
    wraps, or one past the end of the axis, which raises IndexError;
  - absent lines raise TypeError once the first window is labelled, and not at
    all when no window is produced.
- `GetPatches`: the generator is modelled as the full list of its items. A
  consumer that stops early, and the unused counter `i`, are not modelled.
- `Upper` maps ASCII letters only. Unicode case mapping is not modelled.
- `disutils.py` (`is_string`, `is_sequence`) is runtime type introspection and
  is not modelled.
- The `Diagram` base class (`datasets/diagram.py`) is not part of this model.
  Its `name` is a field of the diagram.
- `settings` values become parameters: `normalization`, `use_ewma`,
  `load_parasitic_lines`. `plot_diagrams` only plots.
