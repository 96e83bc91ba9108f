/**
 * `load_diagrams`: builds the diagrams of one folder of the archive from
 * the exported label records. Every archive entry goes through an ordered
 * cascade of checks (white list, label record, QDSD project, pixel size and
 * dot-count classifications, dot type, lines, areas); a failed check skips
 * the entry and bumps one of three counters, an entry that passes them all
 * is loaded. The label file and the archive are taken as already read: the
 * label records as a sequence, the archive as a map from folder path to the
 * entries it lists, each with its parsed CSV matrix.
 */
module DiagramSetLoader {
  import opened Wrappers
  import opened PyOps
  import opened Geometry
  import opened DiagramOffline
  import opened GridLoader
  import opened AnnotationLoader

  /** The answer of a classification: a text answer, a radio choice, or another kind. */
  datatype Answer = TextAnswer(content: string) | RadioAnswer(choice: string) | OtherAnswer

  datatype Classification = Classification(name: string, answer: Answer)

  /** The annotations of one labelling: its classifications and its labelled objects. */
  datatype Annotations = Annotations(classifications: seq<Classification>, objects: seq<AnnotationObject>)

  /** A project of a label record, with its labellings (`labels`), in order. */
  datatype Project = Project(name: string, labels: seq<Annotations>)

  /** One line of the label file: the image it labels (`external_id`) and its projects, in order. */
  datatype LabelRow = LabelRow(externalId: string, projects: seq<Project>)

  /** One file of the archive folder: its file name and its parsed CSV matrix. */
  datatype ArchiveEntry = ArchiveEntry(fileName: string, compact: Grid)

  /** The loader's switches: `single_dot`, `load_lines`, `load_areas`, `white_list` and `load_parasitic_lines`. */
  datatype LoadOptions = LoadOptions(singleDot: bool, loadLines: bool, loadAreas: bool,
                                     whiteList: Option<seq<string>>, loadParasiticLines: bool)

  /**
   * The conversions defined outside this file: pixel coordinates to volts,
   * a name to its charge regime, and `float(text)` (None where it raises).
   */
  datatype Conversions = Conversions(toVolt: CoordToVolt, parseRegime: string -> Option<ChargeRegime>,
                                     parseFloat: string -> Option<real>)

  /** Why an entry is skipped; each reason has its own counter. */
  datatype SkipReason = Excluded | NoLabel | Filtered

  /** What happens to one entry: skipped, loaded, or an exception that ends the whole load. */
  datatype Outcome = Skipped(reason: SkipReason) | Loaded(diagram: Diagram) | Raised(error: PyError)

  /** The loaded diagrams, and the three counters that are logged at the end. */
  datatype LoadReport = LoadReport(diagrams: seq<Diagram>, nbNoLabel: nat, nbExcluded: nat, nbFiltered: nat)

  /** The folder inside the archive: `<pixel size in mV>mV/<research group>/`. */
  function FolderPath(pixelSizeMv: string, researchGroup: string): (p: string)
    ensures |p| == |pixelSizeMv| + |researchGroup| + 4
    ensures pixelSizeMv <= p && p[|p| - 1] == '/'
    ensures p[|pixelSizeMv|..|pixelSizeMv| + 3] == "mV/" && p[|pixelSizeMv| + 3..|p| - 1] == researchGroup
  {
    pixelSizeMv + "mV/" + researchGroup + "/"
  }

  // ---------------------------------------------------------------------
  // The label index

  /** The label records by image: a later record with the same image replaces an earlier one. */
  function LabelIndex(rows: seq<LabelRow>): map<string, LabelRow>
    decreases |rows|
  {
    if rows == [] then map[]
    else LabelIndex(rows[..|rows| - 1])[rows[|rows| - 1].externalId := rows[|rows| - 1]]
  }

  /**
   * An image has a record in the index iff some row labels it, and that
   * record is the last row that labels it.
   */
  lemma {:induction false} LabelIndexLastWins(rows: seq<LabelRow>, id: string)
    ensures id in LabelIndex(rows) <==> exists i :: 0 <= i < |rows| && rows[i].externalId == id
    ensures id in LabelIndex(rows) ==>
      exists i :: 0 <= i < |rows| && rows[i] == LabelIndex(rows)[id] && rows[i].externalId == id &&
                  forall j :: i < j < |rows| ==> rows[j].externalId != id
    decreases |rows|
  {
    if rows != [] {
      var init, last := rows[..|rows| - 1], rows[|rows| - 1];
      LabelIndexLastWins(init, id);
      assert forall i :: 0 <= i < |init| ==> init[i] == rows[i];
      if last.externalId != id && id in LabelIndex(rows) {
        var i :| 0 <= i < |init| && init[i] == LabelIndex(init)[id]
          && init[i].externalId == id && forall j :: i < j < |init| ==> init[j].externalId != id;
        assert rows[i] == LabelIndex(rows)[id];
      }
    }
  }

  /** Reading the label file: each record is stored under its image, in file order. */
  method BuildLabelIndex(rows: seq<LabelRow>) returns (labels: map<string, LabelRow>)
    ensures labels == LabelIndex(rows)
  {
    labels := map[];
    var i := 0;
    while i < |rows|
      invariant 0 <= i <= |rows|
      invariant labels == LabelIndex(rows[..i])
    {
      assert rows[..i + 1][..i] == rows[..i];
      labels := labels[rows[i].externalId := rows[i]];
      i := i + 1;
    }
    assert rows[..i] == rows;
  }

  // ---------------------------------------------------------------------
  // Reading a label record

  /** The test of the project search: the name, upper-cased, is 'QDSD'. */
  predicate IsQdsdProject(p: Project)
  {
    Upper(p.name) == "QDSD"
  }

  /** The test of the first classification search: the pixel size. */
  predicate IsPixelSize(c: Classification)
  {
    c.name == "pixel_size_volt"
  }

  /** The test of the second classification search: the number of dots. */
  predicate IsDotCount(c: Classification)
  {
    c.name == "nb_dot"
  }

  /**
   * The annotations of the first labelling of the first QDSD project: `None`
   * when there is no QDSD project (StopIteration), IndexError when that
   * project has no labelling.
   */
  function QdsdAnnotations(row: LabelRow): Result<Option<Annotations>, PyError>
  {
    match FirstIndex(row.projects, IsQdsdProject)
    case None => Ok(None)
    case Some(k) =>
      var labels := row.projects[k].labels;
      if labels == [] then Err(IndexError) else Ok(Some(labels[0]))
  }

  /**
   * No QDSD project is a missing label (StopIteration); the first QDSD
   * project raises IndexError when it has no labelling and otherwise gives
   * its first labelling's annotations.
   */
  lemma QdsdOutcomes(row: LabelRow)
    ensures QdsdAnnotations(row) == Ok(None) <==>
      forall k :: 0 <= k < |row.projects| ==> !IsQdsdProject(row.projects[k])
    ensures QdsdAnnotations(row).Err? ==> QdsdAnnotations(row).error == IndexError
    ensures forall k :: FirstAt(row.projects, IsQdsdProject, k) ==>
      if row.projects[k].labels == [] then QdsdAnnotations(row) == Err(IndexError)
      else QdsdAnnotations(row) == Ok(Some(row.projects[k].labels[0]))
  {
  }

  /**
   * The labelling pixel size (`pixel_size_volt`, a text answer read as a
   * float) and whether the diagram is single-dot (`nb_dot`, a radio answer
   * equal to 'single'). `None` when either classification is missing
   * (StopIteration); KeyError when it has the other kind of answer; ValueError
   * when the text is not a number.
   */
  function LabelMetadata(ann: Annotations, conv: Conversions): Result<Option<(real, bool)>, PyError>
  {
    match FirstIndex(ann.classifications, IsPixelSize)
    case None => Ok(None)
    case Some(p) =>
      var pixelAnswer := ann.classifications[p].answer;
      if !pixelAnswer.TextAnswer? then Err(KeyError)
      else
        var pixelSize := conv.parseFloat(pixelAnswer.content);
        if pixelSize.None? then Err(ValueError)
        else match FirstIndex(ann.classifications, IsDotCount)
          case None => Ok(None)
          case Some(n) =>
            var dotAnswer := ann.classifications[n].answer;
            if !dotAnswer.RadioAnswer? then Err(KeyError)
            else Ok(Some((pixelSize.value, dotAnswer.choice == "single")))
  }

  /**
   * The pixel-size step of `LabelMetadata`: no `pixel_size_volt`
   * classification is a missing label; on the first one, an answer that is
   * not a text answer raises KeyError and a text that is not a number raises
   * ValueError.
   */
  lemma PixelSizeOutcomes(ann: Annotations, conv: Conversions)
    ensures (forall k :: 0 <= k < |ann.classifications| ==> !IsPixelSize(ann.classifications[k])) ==>
      LabelMetadata(ann, conv) == Ok(None)
    ensures forall p :: FirstAt(ann.classifications, IsPixelSize, p) ==>
      var answer := ann.classifications[p].answer;
      && (!answer.TextAnswer? ==> LabelMetadata(ann, conv) == Err(KeyError))
      && (answer.TextAnswer? && conv.parseFloat(answer.content).None? ==> LabelMetadata(ann, conv) == Err(ValueError))
  {
  }

  /**
   * The dot-count step of `LabelMetadata`, once the pixel size reads as a
   * number: no `nb_dot` classification is a missing label; on the first one,
   * an answer that is not a radio answer raises KeyError, and otherwise the
   * result is the pixel size and whether the choice is 'single'.
   */
  lemma DotCountOutcomes(ann: Annotations, conv: Conversions, p: nat)
    requires FirstAt(ann.classifications, IsPixelSize, p)
    requires ann.classifications[p].answer.TextAnswer?
    requires conv.parseFloat(ann.classifications[p].answer.content).Some?
    ensures (forall k :: 0 <= k < |ann.classifications| ==> !IsDotCount(ann.classifications[k])) ==>
      LabelMetadata(ann, conv) == Ok(None)
    ensures forall n :: FirstAt(ann.classifications, IsDotCount, n) ==>
      var dots := ann.classifications[n].answer;
      && (!dots.RadioAnswer? ==> LabelMetadata(ann, conv) == Err(KeyError))
      && (dots.RadioAnswer? ==>
            LabelMetadata(ann, conv) ==
              Ok(Some((conv.parseFloat(ann.classifications[p].answer.content).value, dots.choice == "single"))))
  {
  }

  /** The names of the line objects: 'line_1', 'line_2' and, when parasitic lines are loaded, 'line_parasite'. */
  function LineLabels(loadParasiticLines: bool): seq<string>
  {
    ["line_1", "line_2"] + (if loadParasiticLines then ["line_parasite"] else [])
  }

  /** The test of the line filter: the object's name is one of `names`. */
  function IsLineObject(names: seq<string>): AnnotationObject -> bool
  {
    (o: AnnotationObject) => o.name in names
  }

  /** The test of the area filter: the object's name contains 'electron'. */
  predicate IsElectronObject(o: AnnotationObject)
  {
    ContainsSubstring(o.name, "electron")
  }

  /** `filter(lambda l: l['name'] in line_labels, objects)`. */
  function LineObjects(objs: seq<AnnotationObject>, names: seq<string>): seq<AnnotationObject>
  {
    Filter(objs, IsLineObject(names))
  }

  /** `filter(lambda l: 'electron' in l['name'], objects)`. */
  function ElectronObjects(objs: seq<AnnotationObject>): seq<AnnotationObject>
  {
    Filter(objs, IsElectronObject)
  }

  /** An object is kept exactly when it is one of the objects and carries one of the names. */
  lemma LineObjectsMembers(objs: seq<AnnotationObject>, names: seq<string>)
    ensures forall o :: o in LineObjects(objs, names) <==> o in objs && o.name in names
  {
    FilterMembers(objs, IsLineObject(names));
  }

  /**
   * The line filter keeps order and multiplicity: the `k`-th line object is
   * the object at the `k`-th kept position, the positions increase, and they
   * are exactly the positions of the objects that carry one of the names.
   */
  lemma LineObjectsOrder(objs: seq<AnnotationObject>, names: seq<string>)
    ensures var kept, pos := LineObjects(objs, names), FilterPositions(objs, IsLineObject(names));
      && |pos| == |kept|
      && (forall k :: 0 <= k < |pos| ==> pos[k] < |objs| && kept[k] == objs[pos[k]] && objs[pos[k]].name in names)
      && (forall k1, k2 :: 0 <= k1 < k2 < |pos| ==> pos[k1] < pos[k2])
      && (forall i :: 0 <= i < |objs| && objs[i].name in names ==> i in pos)
  {
    FilterOrder(objs, IsLineObject(names));
  }

  /** An object is kept exactly when it is one of the objects and its name contains 'electron'. */
  lemma ElectronObjectsMembers(objs: seq<AnnotationObject>)
    ensures forall o :: o in ElectronObjects(objs) <==> o in objs && ContainsSubstring(o.name, "electron")
  {
    FilterMembers(objs, IsElectronObject);
  }

  /**
   * The area filter keeps order and multiplicity, and the order decides which
   * area `get_charge` finds first: the `k`-th area object is the object at the
   * `k`-th kept position, the positions increase, and they are exactly the
   * positions of the objects whose name contains 'electron'.
   */
  lemma ElectronObjectsOrder(objs: seq<AnnotationObject>)
    ensures var kept, pos := ElectronObjects(objs), FilterPositions(objs, IsElectronObject);
      && |pos| == |kept|
      && (forall k :: 0 <= k < |pos| ==> pos[k] < |objs| && kept[k] == objs[pos[k]] && IsElectronObject(objs[pos[k]]))
      && (forall k1, k2 :: 0 <= k1 < k2 < |pos| ==> pos[k1] < pos[k2])
      && (forall i :: 0 <= i < |objs| && IsElectronObject(objs[i]) ==> i in pos)
  {
    FilterOrder(objs, IsElectronObject);
  }

  // ---------------------------------------------------------------------
  // The cascade for one entry

  /** The white list is in force when it is given and not empty. */
  predicate WhiteListed(opts: LoadOptions, basename: string)
  {
    opts.whiteList.None? || opts.whiteList.value == [] || basename in opts.whiteList.value
  }

  /**
   * The last steps, once the entry is of the requested type: load the matrix
   * (flipped), then the lines and the areas when asked for; an empty result
   * for either is a missing label.
   */
  function LoadedOutcome(basename: string, compact: Grid, ann: Annotations, pixelSize: real, opts: LoadOptions,
                         conv: Conversions): Outcome
  {
    match LoadInterpolatedCsv(compact, true)
    case Err(e) => Raised(e)
    case Ok(c) =>
      var lines := if opts.loadLines
                   then LinesOf(LineObjects(ann.objects, LineLabels(opts.loadParasiticLines)), c.x, c.y, pixelSize, 1,
                                conv.toVolt)
                   else Ok([]);
      if lines.Err? then Raised(lines.error)
      else if opts.loadLines && lines.value == [] then Skipped(NoLabel)
      else
        var areas := if opts.loadAreas
                     then AreasOf(ElectronObjects(ann.objects), c.x, c.y, pixelSize, 1, conv.toVolt, conv.parseRegime)
                     else Ok([]);
        if areas.Err? then Raised(areas.error)
        else if opts.loadAreas && areas.value == [] then Skipped(NoLabel)
        else
          Loaded(Diagram(basename, c.x, c.y, c.values, None,
                         if opts.loadLines then Some(lines.value) else None,
                         if opts.loadAreas then Some(areas.value) else None))
  }

  /** The whole cascade for one archive entry. */
  function EntryOutcome(entry: ArchiveEntry, labels: map<string, LabelRow>, opts: LoadOptions,
                        conv: Conversions): Outcome
  {
    var basename := Stem(entry.fileName);
    if !WhiteListed(opts, basename) then Skipped(Excluded)
    else if basename + ".png" !in labels then Skipped(NoLabel)
    else match QdsdAnnotations(labels[basename + ".png"])
      case Err(e) => Raised(e)
      case Ok(None) => Skipped(NoLabel)
      case Ok(Some(ann)) =>
        match LabelMetadata(ann, conv)
        case Err(e) => Raised(e)
        case Ok(None) => Skipped(NoLabel)
        case Ok(Some(meta)) =>
          if opts.singleDot != meta.1 then Skipped(Filtered)
          else LoadedOutcome(basename, entry.compact, ann, meta.0, opts, conv)
  }

  /** The body of the loop of `load_diagrams` for one entry, up to its `continue` or its append. */
  method ProcessEntry(entry: ArchiveEntry, labels: map<string, LabelRow>, opts: LoadOptions, conv: Conversions)
    returns (outcome: Outcome)
    ensures outcome == EntryOutcome(entry, labels, opts, conv)
  {
    var basename := Stem(entry.fileName);
    if !WhiteListed(opts, basename) {
      return Skipped(Excluded);
    }
    if basename + ".png" !in labels {
      return Skipped(NoLabel);
    }
    var current := QdsdAnnotations(labels[basename + ".png"]);
    if current.Err? {
      return Raised(current.error);
    }
    if current.value.None? {
      return Skipped(NoLabel);
    }
    var ann := current.value.value;
    var meta := LabelMetadata(ann, conv);
    if meta.Err? {
      return Raised(meta.error);
    }
    if meta.value.None? {
      return Skipped(NoLabel);
    }
    var (pixelSize, isSingleDot) := meta.value.value;
    if opts.singleDot != isSingleDot {
      return Skipped(Filtered);
    }
    outcome := LoadEntry(basename, entry.compact, ann, pixelSize, opts, conv);
  }

  /** The steps inside the opened entry: matrix, lines, areas, and the new diagram. */
  method LoadEntry(basename: string, compact: Grid, ann: Annotations, pixelSize: real, opts: LoadOptions,
                   conv: Conversions)
    returns (outcome: Outcome)
    ensures outcome == LoadedOutcome(basename, compact, ann, pixelSize, opts, conv)
  {
    var csv := LoadInterpolatedCsv(compact, true);
    if csv.Err? {
      return Raised(csv.error);
    }
    var c := csv.value;
    var transitionLines: Option<seq<LineString>> := None;
    var chargeAreas: Option<seq<ChargeArea>> := None;
    if opts.loadLines {
      var lines := LoadLinesAnnotations(LineObjects(ann.objects, LineLabels(opts.loadParasiticLines)), c.x, c.y,
                                        pixelSize, 1, conv.toVolt);
      if lines.Err? {
        return Raised(lines.error);
      }
      if |lines.value| == 0 {
        return Skipped(NoLabel);
      }
      transitionLines := Some(lines.value);
    }
    if opts.loadAreas {
      var areas := LoadChargeAnnotations(ElectronObjects(ann.objects), c.x, c.y, pixelSize, 1, conv.toVolt,
                                         conv.parseRegime);
      if areas.Err? {
        return Raised(areas.error);
      }
      if |areas.value| == 0 {
        return Skipped(NoLabel);
      }
      chargeAreas := Some(areas.value);
    }
    outcome := Loaded(Diagram(basename, c.x, c.y, c.values, None, transitionLines, chargeAreas));
  }

  // ---------------------------------------------------------------------
  // The loop over the entries

  /** One pass of the loop: an exception ends it, a skip bumps its counter, a diagram is appended. */
  function Step(rep: LoadReport, o: Outcome): Result<LoadReport, PyError>
  {
    match o
    case Raised(e) => Err(e)
    case Loaded(d) => Ok(rep.(diagrams := rep.diagrams + [d]))
    case Skipped(Excluded) => Ok(rep.(nbExcluded := rep.nbExcluded + 1))
    case Skipped(NoLabel) => Ok(rep.(nbNoLabel := rep.nbNoLabel + 1))
    case Skipped(Filtered) => Ok(rep.(nbFiltered := rep.nbFiltered + 1))
  }

  /** The result of the loop over a run of outcomes: the first exception ends it. */
  function Tally(os: seq<Outcome>): Result<LoadReport, PyError>
    decreases |os|
  {
    if os == [] then Ok(LoadReport([], 0, 0, 0))
    else
      match Tally(os[..|os| - 1])
      case Err(e) => Err(e)
      case Ok(rep) => Step(rep, os[|os| - 1])
  }

  /** Taking one more outcome into the loop. */
  lemma TallyStep(os: seq<Outcome>, i: nat, rep: LoadReport, o: Outcome)
    requires i < |os| && Tally(os[..i]) == Ok(rep) && os[i] == o
    ensures Tally(os[..i + 1]) == Step(rep, o)
  {
    assert os[..i + 1][..i] == os[..i];
  }

  /** The outcome of every entry of a folder, in archive order. */
  function Outcomes(entries: seq<ArchiveEntry>, labels: map<string, LabelRow>, opts: LoadOptions,
                    conv: Conversions): (os: seq<Outcome>)
    ensures |os| == |entries|
    decreases |entries|
  {
    if entries == [] then []
    else Outcomes(entries[..|entries| - 1], labels, opts, conv) + [EntryOutcome(entries[|entries| - 1], labels, opts, conv)]
  }

  /** The `k`-th outcome is the cascade's verdict on the `k`-th entry. */
  lemma {:induction false} OutcomesAt(entries: seq<ArchiveEntry>, labels: map<string, LabelRow>, opts: LoadOptions,
                                      conv: Conversions, k: nat)
    requires k < |entries|
    ensures Outcomes(entries, labels, opts, conv)[k] == EntryOutcome(entries[k], labels, opts, conv)
    decreases |entries|
  {
    if k < |entries| - 1 {
      OutcomesAt(entries[..|entries| - 1], labels, opts, conv, k);
    }
  }

  /** The loop body for the entry at position `i`: its outcome is the `i`-th of the folder's outcomes. */
  method ProcessAt(entries: seq<ArchiveEntry>, i: nat, labels: map<string, LabelRow>, opts: LoadOptions,
                   conv: Conversions)
    returns (outcome: Outcome)
    requires i < |entries|
    ensures outcome == Outcomes(entries, labels, opts, conv)[i]
  {
    outcome := ProcessEntry(entries[i], labels, opts, conv);
    OutcomesAt(entries, labels, opts, conv, i);
  }

  /** Once a prefix raises, the whole run raises the same exception. */
  lemma {:induction false} TallyPrefixErr(os: seq<Outcome>, k: nat)
    requires k <= |os| && Tally(os[..k]).Err?
    ensures Tally(os) == Tally(os[..k])
    decreases |os| - k
  {
    if k < |os| {
      assert os[..k + 1][..k] == os[..k];
      TallyPrefixErr(os, k + 1);
    } else {
      assert os[..k] == os;
    }
  }

  /**
   * `load_diagrams`. A folder missing from the archive raises ValueError;
   * otherwise the result is the tally of the folder's entries, looked up in
   * the label records.
   */
  method LoadDiagrams(rows: seq<LabelRow>, archive: map<string, seq<ArchiveEntry>>, pixelSizeMv: string,
                      researchGroup: string, opts: LoadOptions, conv: Conversions)
    returns (r: Result<LoadReport, PyError>)
    ensures FolderPath(pixelSizeMv, researchGroup) !in archive ==> r == Err(ValueError)
    ensures FolderPath(pixelSizeMv, researchGroup) in archive ==>
      r == Tally(Outcomes(archive[FolderPath(pixelSizeMv, researchGroup)], LabelIndex(rows), opts, conv))
  {
    var labels := BuildLabelIndex(rows);
    var inZipPath := FolderPath(pixelSizeMv, researchGroup);
    if inZipPath !in archive {
      return Err(ValueError);
    }
    r := LoadEntries(archive[inZipPath], labels, opts, conv);
  }

  /** The bookkeeping after an entry that did not raise: a skip bumps its counter, a diagram is appended. */
  method Count(outcome: Outcome, diagrams: seq<Diagram>, nbNoLabel: nat, nbExcluded: nat, nbFiltered: nat)
    returns (diagrams': seq<Diagram>, nbNoLabel': nat, nbExcluded': nat, nbFiltered': nat)
    requires !outcome.Raised?
    ensures Step(LoadReport(diagrams, nbNoLabel, nbExcluded, nbFiltered), outcome)
         == Ok(LoadReport(diagrams', nbNoLabel', nbExcluded', nbFiltered'))
  {
    diagrams', nbNoLabel', nbExcluded', nbFiltered' := diagrams, nbNoLabel, nbExcluded, nbFiltered;
    match outcome {
      case Skipped(Excluded) =>
        nbExcluded' := nbExcluded + 1;
      case Skipped(NoLabel) =>
        nbNoLabel' := nbNoLabel + 1;
      case Skipped(Filtered) =>
        nbFiltered' := nbFiltered + 1;
      case Loaded(d) =>
        diagrams' := diagrams + [d];
    }
  }

  /** The loop of `load_diagrams` over the folder's entries, with its three counters and its list. */
  method LoadEntries(entries: seq<ArchiveEntry>, labels: map<string, LabelRow>, opts: LoadOptions,
                     conv: Conversions)
    returns (r: Result<LoadReport, PyError>)
    ensures r == Tally(Outcomes(entries, labels, opts, conv))
  {
    ghost var os := Outcomes(entries, labels, opts, conv);
    var diagrams: seq<Diagram> := [];
    var nbNoLabel, nbExcluded, nbFiltered := 0, 0, 0;
    var i := 0;
    while i < |entries|
      invariant 0 <= i <= |entries|
      invariant Tally(os[..i]) == Ok(LoadReport(diagrams, nbNoLabel, nbExcluded, nbFiltered))
    {
      var outcome := ProcessAt(entries, i, labels, opts, conv);
      TallyStep(os, i, LoadReport(diagrams, nbNoLabel, nbExcluded, nbFiltered), outcome);
      if outcome.Raised? {
        TallyPrefixErr(os, i + 1);
        return Err(outcome.error);
      }
      diagrams, nbNoLabel, nbExcluded, nbFiltered := Count(outcome, diagrams, nbNoLabel, nbExcluded, nbFiltered);
      i := i + 1;
    }
    assert os[..i] == os;
    return Ok(LoadReport(diagrams, nbNoLabel, nbExcluded, nbFiltered));
  }

  // ---------------------------------------------------------------------
  // What the loop computes

  /** How many outcomes are skips for `reason`. */
  function CountOf(os: seq<Outcome>, reason: SkipReason): nat
    decreases |os|
  {
    if os == [] then 0
    else CountOf(os[..|os| - 1], reason) + (if os[|os| - 1] == Skipped(reason) then 1 else 0)
  }

  /** The loaded diagrams, in order. */
  function LoadedOf(os: seq<Outcome>): seq<Diagram>
    decreases |os|
  {
    if os == [] then []
    else LoadedOf(os[..|os| - 1]) + (if os[|os| - 1].Loaded? then [os[|os| - 1].diagram] else [])
  }

  /** The test that selects the loaded outcomes. */
  predicate IsLoadedOutcome(o: Outcome)
  {
    o.Loaded?
  }

  /** The loaded diagrams are the diagrams of the loaded outcomes, in order. */
  lemma {:induction false} LoadedOfFilter(os: seq<Outcome>)
    ensures |LoadedOf(os)| == |Filter(os, IsLoadedOutcome)|
    ensures forall k :: 0 <= k < |LoadedOf(os)| ==> Filter(os, IsLoadedOutcome)[k] == Loaded(LoadedOf(os)[k])
    decreases |os|
  {
    if os != [] {
      LoadedOfFilter(os[..|os| - 1]);
    }
  }

  /**
   * Where the loaded diagrams come from: the positions of the loaded
   * outcomes are increasing and cover every one of them, and the `k`-th
   * holds the `k`-th loaded diagram.
   */
  lemma LoadedPositionsMeaning(os: seq<Outcome>)
    ensures var pos := FilterPositions(os, IsLoadedOutcome);
      && |pos| == |LoadedOf(os)|
      && (forall k :: 0 <= k < |pos| ==> pos[k] < |os| && os[pos[k]] == Loaded(LoadedOf(os)[k]))
      && (forall k1, k2 :: 0 <= k1 < k2 < |pos| ==> pos[k1] < pos[k2])
      && (forall i :: 0 <= i < |os| && os[i].Loaded? ==> i in pos)
  {
    LoadedOfFilter(os);
    FilterOrder(os, IsLoadedOutcome);
  }

  /**
   * The loop ends normally iff no entry raises; it then holds the loaded
   * diagrams in order and the number of skips for each reason. Otherwise it
   * raises the exception of the first entry that raises.
   */
  lemma {:induction false} TallyMeaning(os: seq<Outcome>)
    ensures Tally(os).Ok? <==> forall k :: 0 <= k < |os| ==> !os[k].Raised?
    ensures Tally(os).Ok? ==>
      Tally(os).value == LoadReport(LoadedOf(os), CountOf(os, NoLabel), CountOf(os, Excluded), CountOf(os, Filtered))
    ensures Tally(os).Err? ==>
      exists k :: 0 <= k < |os| && os[k] == Raised(Tally(os).error) && forall j :: 0 <= j < k ==> !os[j].Raised?
    decreases |os|
  {
    if os != [] {
      var init := os[..|os| - 1];
      TallyMeaning(init);
      assert forall k :: 0 <= k < |init| ==> init[k] == os[k];
    }
  }

  /** Every outcome that is not an exception is exactly one skip or one loaded diagram. */
  lemma {:induction false} OutcomesPartition(os: seq<Outcome>)
    requires forall k :: 0 <= k < |os| ==> !os[k].Raised?
    ensures CountOf(os, NoLabel) + CountOf(os, Excluded) + CountOf(os, Filtered) + |LoadedOf(os)| == |os|
    decreases |os|
  {
    if os != [] {
      var init := os[..|os| - 1];
      assert forall k :: 0 <= k < |init| ==> init[k] == os[k];
      OutcomesPartition(init);
      var last := os[|os| - 1];
      assert CountOf(os, NoLabel) == CountOf(init, NoLabel) + (if last == Skipped(NoLabel) then 1 else 0);
      assert CountOf(os, Excluded) == CountOf(init, Excluded) + (if last == Skipped(Excluded) then 1 else 0);
      assert CountOf(os, Filtered) == CountOf(init, Filtered) + (if last == Skipped(Filtered) then 1 else 0);
      assert |LoadedOf(os)| == |LoadedOf(init)| + (if last.Loaded? then 1 else 0);
      assert !last.Raised?;
      assert |init| == |os| - 1;
      match last {
        case Loaded(_) =>
        case Skipped(NoLabel) =>
        case Skipped(Excluded) =>
        case Skipped(Filtered) =>
      }
    }
  }

  /**
   * When the load ends normally, every entry of the folder was counted once:
   * no-label, excluded, filtered, or loaded.
   */
  lemma LoadPartition(entries: seq<ArchiveEntry>, labels: map<string, LabelRow>, opts: LoadOptions,
                      conv: Conversions)
    ensures var r := Tally(Outcomes(entries, labels, opts, conv));
      r.Ok? ==> r.value.nbNoLabel + r.value.nbExcluded + r.value.nbFiltered + |r.value.diagrams| == |entries|
  {
    var os := Outcomes(entries, labels, opts, conv);
    TallyMeaning(os);
    if Tally(os).Ok? {
      OutcomesPartition(os);
    }
  }

  /**
   * The loaded diagrams keep archive order: the `k`-th comes from an entry
   * before the one of the `k + 1`-th, and every entry that loads is among them.
   */
  lemma LoadKeepsArchiveOrder(entries: seq<ArchiveEntry>, labels: map<string, LabelRow>, opts: LoadOptions,
                              conv: Conversions)
    ensures var os := Outcomes(entries, labels, opts, conv);
      var r, pos := Tally(os), FilterPositions(os, IsLoadedOutcome);
      r.Ok? ==>
        && |pos| == |r.value.diagrams|
        && (forall k :: 0 <= k < |pos| ==>
              pos[k] < |entries| && EntryOutcome(entries[pos[k]], labels, opts, conv) == Loaded(r.value.diagrams[k]))
        && (forall k1, k2 :: 0 <= k1 < k2 < |pos| ==> pos[k1] < pos[k2])
        && (forall i :: 0 <= i < |entries| && EntryOutcome(entries[i], labels, opts, conv).Loaded? ==> i in pos)
  {
    var os := Outcomes(entries, labels, opts, conv);
    TallyMeaning(os);
    LoadedPositionsMeaning(os);
    forall i | 0 <= i < |entries|
      ensures os[i] == EntryOutcome(entries[i], labels, opts, conv)
    {
      OutcomesAt(entries, labels, opts, conv, i);
    }
  }

  // ---------------------------------------------------------------------
  // The order of the cascade

  /** The white list is checked first: an entry is excluded iff its stem is not on a white list in force. */
  lemma ExcludedIff(entry: ArchiveEntry, labels: map<string, LabelRow>, opts: LoadOptions, conv: Conversions)
    ensures EntryOutcome(entry, labels, opts, conv) == Skipped(Excluded) <==> !WhiteListed(opts, Stem(entry.fileName))
  {
  }

  /** An entry on the white list whose `<stem>.png` has no label record is a missing label. */
  lemma NoRecordIsNoLabel(entry: ArchiveEntry, rows: seq<LabelRow>, opts: LoadOptions, conv: Conversions)
    requires WhiteListed(opts, Stem(entry.fileName))
    requires forall i :: 0 <= i < |rows| ==> rows[i].externalId != Stem(entry.fileName) + ".png"
    ensures EntryOutcome(entry, LabelIndex(rows), opts, conv) == Skipped(NoLabel)
  {
    LabelIndexLastWins(rows, Stem(entry.fileName) + ".png");
  }

  /**
   * A record that has no QDSD project (in any letter case), or whose QDSD
   * labelling lacks the pixel size, is a missing label; one that lacks the
   * dot count is a missing label or raises, and is never filtered.
   */
  lemma MissingLabelIsNoLabel(entry: ArchiveEntry, labels: map<string, LabelRow>, opts: LoadOptions,
                              conv: Conversions)
    requires WhiteListed(opts, Stem(entry.fileName)) && Stem(entry.fileName) + ".png" in labels
    ensures var projects := labels[Stem(entry.fileName) + ".png"].projects;
      (forall k :: 0 <= k < |projects| ==> Upper(projects[k].name) != "QDSD") ==>
        EntryOutcome(entry, labels, opts, conv) == Skipped(NoLabel)
    ensures var current := QdsdAnnotations(labels[Stem(entry.fileName) + ".png"]);
      current.Ok? && current.value.Some? &&
      (forall k :: 0 <= k < |current.value.value.classifications| ==>
         current.value.value.classifications[k].name != "pixel_size_volt") ==>
        EntryOutcome(entry, labels, opts, conv) == Skipped(NoLabel)
    ensures var current := QdsdAnnotations(labels[Stem(entry.fileName) + ".png"]);
      current.Ok? && current.value.Some? &&
      (forall k :: 0 <= k < |current.value.value.classifications| ==>
         current.value.value.classifications[k].name != "nb_dot") ==>
        EntryOutcome(entry, labels, opts, conv) == Skipped(NoLabel) || EntryOutcome(entry, labels, opts, conv).Raised?
  {
  }

  /**
   * An entry is filtered iff it passes the white list, has a record with a
   * QDSD labelling whose pixel size and dot count read cleanly, and its dot
   * count is not the requested one; its matrix and its objects play no part.
   */
  lemma FilteredIff(entry: ArchiveEntry, labels: map<string, LabelRow>, opts: LoadOptions, conv: Conversions)
    ensures EntryOutcome(entry, labels, opts, conv) == Skipped(Filtered) <==>
      var basename := Stem(entry.fileName);
      && WhiteListed(opts, basename)
      && basename + ".png" in labels
      && var current := QdsdAnnotations(labels[basename + ".png"]);
      && current.Ok? && current.value.Some?
      && var meta := LabelMetadata(current.value.value, conv);
      && meta.Ok? && meta.value.Some?
      && opts.singleDot != meta.value.value.1
  {
  }

  /**
   * Once the matrix loads, an entry asked for its lines whose labelling has
   * no object named 'line_1', 'line_2' (or 'line_parasite' when parasitic
   * lines are loaded) has an empty line list and is a missing label.
   */
  lemma EmptyLinesIsNoLabel(basename: string, compact: Grid, ann: Annotations, pixelSize: real, opts: LoadOptions,
                            conv: Conversions)
    requires LoadInterpolatedCsv(compact, true).Ok? && opts.loadLines
    requires forall k :: 0 <= k < |ann.objects| ==> ann.objects[k].name !in LineLabels(opts.loadParasiticLines)
    ensures LoadedOutcome(basename, compact, ann, pixelSize, opts, conv) == Skipped(NoLabel)
  {
    FilterNone(ann.objects, IsLineObject(LineLabels(opts.loadParasiticLines)));
  }

  /**
   * Once the matrix loads and the lines, when asked for, are found, an entry
   * asked for its areas whose labelling has no object with 'electron' in its
   * name has an empty area list and is a missing label.
   */
  lemma EmptyAreasIsNoLabel(basename: string, compact: Grid, ann: Annotations, pixelSize: real, opts: LoadOptions,
                            conv: Conversions)
    requires LoadInterpolatedCsv(compact, true).Ok? && opts.loadAreas
    requires opts.loadLines ==>
      var c := LoadInterpolatedCsv(compact, true).value;
      var lines := LinesOf(LineObjects(ann.objects, LineLabels(opts.loadParasiticLines)), c.x, c.y, pixelSize, 1,
                           conv.toVolt);
      lines.Ok? && lines.value != []
    requires forall k :: 0 <= k < |ann.objects| ==> !ContainsSubstring(ann.objects[k].name, "electron")
    ensures LoadedOutcome(basename, compact, ann, pixelSize, opts, conv) == Skipped(NoLabel)
  {
    FilterNone(ann.objects, IsElectronObject);
  }

  /**
   * The steps inside the opened entry never exclude or filter: they load,
   * skip for a missing label, or raise. A matrix that does not load raises
   * its error, and the only exceptions are IndexError, KeyError and
   * ValueError.
   */
  lemma LoadedOutcomeKinds(basename: string, compact: Grid, ann: Annotations, pixelSize: real, opts: LoadOptions,
                           conv: Conversions)
    ensures var o := LoadedOutcome(basename, compact, ann, pixelSize, opts, conv);
      && o != Skipped(Excluded) && o != Skipped(Filtered)
      && (LoadInterpolatedCsv(compact, true).Err? ==> o == Raised(LoadInterpolatedCsv(compact, true).error))
      && (o.Raised? ==> o.error == IndexError || o.error == KeyError || o.error == ValueError)
      && (o.Loaded? ==> o.diagram.name == basename)
  {
    var csv := LoadInterpolatedCsv(compact, true);
    if csv.Ok? {
      var c := csv.value;
      LinesOfErrors(LineObjects(ann.objects, LineLabels(opts.loadParasiticLines)), c.x, c.y, pixelSize, 1, conv.toVolt);
      AreasOfErrors(ElectronObjects(ann.objects), c.x, c.y, pixelSize, 1, conv.toVolt, conv.parseRegime);
    }
  }

  /**
   * The exceptions of the cascade: an entry raises only once it is on the
   * white list and has a record; the first QDSD project with no labelling
   * raises IndexError rather than being skipped; and the only exceptions are
   * IndexError, KeyError and ValueError.
   */
  lemma EntryOutcomeRaises(entry: ArchiveEntry, labels: map<string, LabelRow>, opts: LoadOptions, conv: Conversions)
    ensures var o, basename := EntryOutcome(entry, labels, opts, conv), Stem(entry.fileName);
      o.Raised? ==> WhiteListed(opts, basename) && basename + ".png" in labels
    ensures var o, basename := EntryOutcome(entry, labels, opts, conv), Stem(entry.fileName);
      WhiteListed(opts, basename) && basename + ".png" in labels ==>
        forall k :: FirstAt(labels[basename + ".png"].projects, IsQdsdProject, k) ==>
          labels[basename + ".png"].projects[k].labels == [] ==> o == Raised(IndexError)
    ensures var o := EntryOutcome(entry, labels, opts, conv);
      o.Raised? ==> o.error == IndexError || o.error == KeyError || o.error == ValueError
  {
    var basename := Stem(entry.fileName);
    if WhiteListed(opts, basename) && basename + ".png" in labels {
      QdsdOutcomes(labels[basename + ".png"]);
      var current := QdsdAnnotations(labels[basename + ".png"]);
      if current.Ok? && current.value.Some? {
        var ann := current.value.value;
        var meta := LabelMetadata(ann, conv);
        if meta.Ok? && meta.value.Some? {
          LoadedOutcomeKinds(basename, entry.compact, ann, meta.value.value.0, opts, conv);
        }
      }
    }
  }

  /**
   * A loaded diagram is named after the entry's stem, has a grid that
   * matches its axes, no normalised copy yet, and non-empty lines and areas
   * exactly when they were asked for; its record passed every check.
   */
  lemma LoadedDiagramIsWellFormed(entry: ArchiveEntry, labels: map<string, LabelRow>, opts: LoadOptions,
                                  conv: Conversions)
    requires EntryOutcome(entry, labels, opts, conv).Loaded?
    ensures var d := EntryOutcome(entry, labels, opts, conv).diagram;
      && d.Valid()
      && d.name == Stem(entry.fileName)
      && d.valuesNorm.None?
      && (d.transitionLines.Some? <==> opts.loadLines)
      && (d.transitionLines.Some? ==> |d.transitionLines.value| > 0)
      && (d.chargeAreas.Some? <==> opts.loadAreas)
      && (d.chargeAreas.Some? ==> |d.chargeAreas.value| > 0)
    ensures WhiteListed(opts, Stem(entry.fileName)) && Stem(entry.fileName) + ".png" in labels
  {
    var compact := entry.compact;
    if Rectangular(compact) && |compact| >= 2 && |compact[0]| >= 3 {
      LoadedContents(compact, true);
    }
  }
}
