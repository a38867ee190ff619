/**
  The selection logic of the DICOM chooser window (`DicomChooser`): the
  treeview it fills from the grouped tree, confirming a node, and reading the
  selection back.

  The widgets are not modelled. The treeview is the set of its items, each
  with its `text` and its `values` tuple; the items the user has selected are
  passed to the confirm handler. A message box or an exception escaping a Tk
  callback is an outcome value, and then nothing in the chooser changes.
 */
module Chooser {
  import opened Wrappers
  import opened PyStr
  import opened DicomHelper

  datatype SelectionMode = Series | File

  /** A treeview item: its label and its `values` tuple. */
  datatype Node = Node(text: string, values: seq<string>)

  /** What `on_select_clicked` does with the current selection. */
  datatype Confirm =
    | NothingSelected        // warning "Please select an item."
    | InvalidSelection       // warning "Invalid selection. Please select a series node."
    | TreeNotLoaded          // subscripting `self.dicom_tree` while it is still None raises
    | SeriesKeyMissing       // KeyError: the node's values are not a series of the tree
    | NoValues               // IndexError: `values[0]` of an item without values
    | SeriesConfirmed(name: string, files: seq<string>)
    | FileConfirmed(file: string)
  {
    predicate Accepted()
    {
      SeriesConfirmed? || FileConfirmed?
    }
  }

  datatype Selection = SeriesSelection(name: string, files: seq<string>) | FileSelection(file: string)

  datatype SelectionError =
    | NoSeriesSelected       // ValueError "No series selected."
    | NoFileSelected         // ValueError "No file selected."
    | SelectedFileUnset      // AttributeError: `selected_file` is only ever set by a confirm

  // ---------------------------------------------------------------------------
  // Labels and the nodes of the treeview
  // ---------------------------------------------------------------------------

  /** `f"{patient_name} - {study_uid}"`. */
  function StudyLabel(patient: string, study: string): (r: string)
    ensures |r| == |patient| + 3 + |study|
    ensures r[..|patient|] == patient && r[|patient|..|patient| + 3] == " - " && r[|r| - |study|..] == study
  {
    patient + " - " + study
  }

  /** `f"{modality} - {series_datetime} - {series_uid} ({num_files} files)"`. */
  function SeriesLabel(series: string, e: SeriesEntry): (r: string)
    ensures var m, d, u := |e.modality|, |e.seriesDatetime|, |series|;
      var suffix := " (" + NatToStr(|e.files|) + " files)";
      |r| == m + 3 + d + 3 + u + |suffix|
      && r[..m] == e.modality && r[m..m + 3] == " - "
      && r[m + 3..m + 3 + d] == e.seriesDatetime && r[m + 3 + d..m + 6 + d] == " - "
      && r[m + 6 + d..m + 6 + d + u] == series && r[m + 6 + d + u..] == suffix
  {
    var sep := " - ";
    var suffix := " (" + IntToStr(|e.files|) + " files)";
    Pieces(e.modality, sep, e.seriesDatetime);
    Pieces(e.modality + sep + e.seriesDatetime, sep, series + suffix);
    Pieces(e.modality + sep + e.seriesDatetime + sep, series, suffix);
    Pieces(e.modality + sep, e.seriesDatetime, sep + series + suffix);
    Assoc5(e.modality, sep, e.seriesDatetime, sep, series, suffix);
    e.modality + sep + e.seriesDatetime + sep + series + suffix
  }

  /** The three pieces of a concatenation, read back at their offsets. */
  lemma Pieces(a: string, b: string, c: string)
    ensures (a + b + c)[..|a|] == a && (a + b + c)[|a|..|a| + |b|] == b && (a + b + c)[|a| + |b|..] == c
  {
  }

  lemma Assoc5(a: string, b: string, c: string, d: string, e: string, f: string)
    ensures a + b + c + d + e + f == (a + b + c + d) + e + f
    ensures a + b + c + d + e + f == (a + b + c) + d + (e + f)
    ensures a + b + c + d + e + f == (a + b) + c + (d + e + f)
  {
  }

  /** A file item: its text is the base name, its one value the full path. */
  function FileNode(path: string): (r: Node)
    ensures |r.values| == 1 && r.values[0] == path
    ensures |r.text| <= |path| && r.text == path[|path| - |r.text|..]
    ensures |r.text| < |path| ==> IsPathSep(path[|path| - |r.text| - 1]) || (HasDrive(path) && |r.text| == |path| - 2)
    ensures forall i :: 0 <= i < |r.text| ==> !IsPathSep(r.text[i])
    ensures HasDrive(path) && (forall i :: 2 <= i < |path| ==> !IsPathSep(path[i])) ==> r.text == path[2..]
  {
    Node(Basename(path), [path])
  }

  ghost function FileNodes(files: seq<string>): set<Node>
  {
    set f | f in files :: FileNode(f)
  }

  lemma FileNodesPrefix(files: seq<string>, i: nat)
    requires i < |files|
    ensures FileNodes(files[..i + 1]) == FileNodes(files[..i]) + {FileNode(files[i])}
  {
    assert files[..i + 1] == files[..i] + [files[i]];
    assert forall g :: g in files[..i + 1] <==> g in files[..i] || g == files[i];
  }

  /** A series node (values `(patient, study, series)`) and the nodes of its files. */
  ghost function SeriesNodes(p: string, s: string, se: string, e: SeriesEntry): set<Node>
  {
    {Node(SeriesLabel(se, e), [p, s, se])} + FileNodes(e.files)
  }

  /** The nodes for the series of one study whose uid is in `keys`. */
  ghost function SeriesNodesIn(p: string, s: string, sm: SeriesMap, keys: set<string>): set<Node>
  {
    set se, n | se in keys && se in sm && n in SeriesNodes(p, s, se, sm[se]) :: n
  }

  /** Taking one more series out of the ones still to insert adds its nodes. */
  lemma SeriesNodesInAdd(p: string, s: string, sm: SeriesMap, remaining: set<string>, se: string)
    requires se in remaining && remaining <= sm.Keys
    ensures SeriesNodesIn(p, s, sm, sm.Keys - (remaining - {se}))
         == SeriesNodesIn(p, s, sm, sm.Keys - remaining) + SeriesNodes(p, s, se, sm[se])
  {
    assert sm.Keys - (remaining - {se}) == (sm.Keys - remaining) + {se};
  }

  /** A study node (no values) and everything under it. */
  ghost function StudyNodes(p: string, s: string, sm: SeriesMap): set<Node>
  {
    {Node(StudyLabel(p, s), [])} + SeriesNodesIn(p, s, sm, sm.Keys)
  }

  ghost function StudyNodesIn(p: string, st: StudyMap, keys: set<string>): set<Node>
  {
    set s, n | s in keys && s in st && n in StudyNodes(p, s, st[s]) :: n
  }

  /** Taking one more study out of the ones still to insert adds its nodes. */
  lemma StudyNodesInAdd(p: string, st: StudyMap, remaining: set<string>, s: string)
    requires s in remaining && remaining <= st.Keys
    ensures StudyNodesIn(p, st, st.Keys - (remaining - {s}))
         == StudyNodesIn(p, st, st.Keys - remaining) + StudyNodes(p, s, st[s])
  {
    assert st.Keys - (remaining - {s}) == (st.Keys - remaining) + {s};
  }

  ghost function PatientNodesIn(tree: DicomTree, keys: set<string>): set<Node>
  {
    set p, n | p in keys && p in tree && n in StudyNodesIn(p, tree[p], tree[p].Keys) :: n
  }

  /** Every item `load_series_tree` inserts for `tree`. */
  ghost function TreeNodes(tree: DicomTree): set<Node>
  {
    PatientNodesIn(tree, tree.Keys)
  }

  // The rule that makes each item, read off the tree.

  ghost predicate IsStudyNode(tree: DicomTree, n: Node)
  {
    exists p, s | p in tree && s in tree[p] :: n == Node(StudyLabel(p, s), [])
  }

  ghost predicate IsSeriesNode(tree: DicomTree, n: Node)
  {
    exists p, s, se | p in tree && s in tree[p] && se in tree[p][s] :: n == Node(SeriesLabel(se, tree[p][s][se]), [p, s, se])
  }

  ghost predicate IsFileNode(tree: DicomTree, n: Node)
  {
    exists p, s, se, f | p in tree && s in tree[p] && se in tree[p][s] && f in tree[p][s][se].files :: n == FileNode(f)
  }

  /** The treeview holds exactly one item per study, per series and per file path of the tree. */
  lemma TreeNodesChar(tree: DicomTree, n: Node)
    ensures n in TreeNodes(tree) <==> IsStudyNode(tree, n) || IsSeriesNode(tree, n) || IsFileNode(tree, n)
  {
    if n in TreeNodes(tree) {
      TreeNodeKind(tree, n);
    }
    if IsStudyNode(tree, n) {
      var p, s :| p in tree && s in tree[p] && n == Node(StudyLabel(p, s), []);
      InTree(tree, p, s, n);
    }
    if IsSeriesNode(tree, n) {
      var p, s, se :| p in tree && s in tree[p] && se in tree[p][s] && n == Node(SeriesLabel(se, tree[p][s][se]), [p, s, se]);
      InStudy(p, s, tree[p][s], se, n);
      InTree(tree, p, s, n);
    }
    if IsFileNode(tree, n) {
      var p, s, se, f :| p in tree && s in tree[p] && se in tree[p][s] && f in tree[p][s][se].files && n == FileNode(f);
      assert n in FileNodes(tree[p][s][se].files);
      InStudy(p, s, tree[p][s], se, n);
      InTree(tree, p, s, n);
    }
  }

  lemma TreeNodeKind(tree: DicomTree, n: Node)
    requires n in TreeNodes(tree)
    ensures IsStudyNode(tree, n) || IsSeriesNode(tree, n) || IsFileNode(tree, n)
  {
    var p :| p in tree && n in StudyNodesIn(p, tree[p], tree[p].Keys);
    var s :| s in tree[p] && n in StudyNodes(p, s, tree[p][s]);
    if n != Node(StudyLabel(p, s), []) {
      assert n in SeriesNodesIn(p, s, tree[p][s], tree[p][s].Keys);
      var se :| se in tree[p][s] && n in SeriesNodes(p, s, se, tree[p][s][se]);
      if n != Node(SeriesLabel(se, tree[p][s][se]), [p, s, se]) {
        assert n in FileNodes(tree[p][s][se].files);
        var f :| f in tree[p][s][se].files && n == FileNode(f);
      }
    }
  }

  lemma InTree(tree: DicomTree, p: string, s: string, n: Node)
    requires p in tree && s in tree[p] && n in StudyNodes(p, s, tree[p][s])
    ensures n in TreeNodes(tree)
  {
    assert n in StudyNodesIn(p, tree[p], tree[p].Keys);
  }

  lemma InStudy(p: string, s: string, sm: SeriesMap, se: string, n: Node)
    requires se in sm && n in SeriesNodes(p, s, se, sm[se])
    ensures n in StudyNodes(p, s, sm)
  {
    assert n in SeriesNodesIn(p, s, sm, sm.Keys);
  }

  /**
    The items come in three kinds told apart by how many values they carry: a
    study node none, a file node one (its path), a series node three (the keys
    of an existing series, whose file list is not empty).
   */
  lemma NodeArity(tree: DicomTree, n: Node)
    requires WellFormed(tree)
    requires n in TreeNodes(tree)
    ensures |n.values| == 0 || |n.values| == 1 || |n.values| == 3
    ensures |n.values| == 3 ==>
      var k := SeriesKey(n.values[0], n.values[1], n.values[2]);
      Lookup(tree, k).Some? && Lookup(tree, k).value.files != [] && n.text == SeriesLabel(k.series, Lookup(tree, k).value)
    ensures |n.values| == 1 ==>
      exists p, s, se | p in tree && s in tree[p] && se in tree[p][s] :: n.values[0] in tree[p][s][se].files
  {
    TreeNodesChar(tree, n);
    if IsSeriesNode(tree, n) {
      var p, s, se :| p in tree && s in tree[p] && se in tree[p][s] && n == Node(SeriesLabel(se, tree[p][s][se]), [p, s, se]);
      assert StudyMapOk(tree[p]) && SeriesMapOk(tree[p][s]);
    } else if IsFileNode(tree, n) {
      var p, s, se, f :| p in tree && s in tree[p] && se in tree[p][s] && f in tree[p][s][se].files && n == FileNode(f);
      assert n.values[0] == f;
    }
  }

  // ---------------------------------------------------------------------------
  // Confirming and reading back, as functions of the state
  // ---------------------------------------------------------------------------

  /** The specification of `OnSelectClicked` (`on_select_clicked`): only the first selected item is looked at. */
  function ConfirmOf(mode: SelectionMode, tree: Option<DicomTree>, selection: seq<Node>): (r: Confirm)
    ensures r.SeriesConfirmed? ==>
      mode == Series && selection != [] && |selection[0].values| >= 3 && tree.Some?
      && r.name == selection[0].text
      && var k := SeriesKey(selection[0].values[0], selection[0].values[1], selection[0].values[2]);
         Lookup(tree.value, k).Some? && Lookup(tree.value, k).value.files == r.files
    ensures r.FileConfirmed? ==> mode == File && selection != [] && selection[0].values != [] && r.file == selection[0].values[0]
    ensures r == NothingSelected <==> selection == []
    ensures r == InvalidSelection <==> mode == Series && selection != [] && |selection[0].values| < 3
  {
    if selection == [] then NothingSelected
    else
      var item := selection[0];
      match mode
      case Series =>
        if |item.values| < 3 then InvalidSelection
        else if tree.None? then TreeNotLoaded
        else
          (match Lookup(tree.value, SeriesKey(item.values[0], item.values[1], item.values[2]))
           case None => SeriesKeyMissing
           case Some(e) => SeriesConfirmed(item.text, e.files))
      case File =>
        if item.values == [] then NoValues else FileConfirmed(item.values[0])
  }

  /** The specification of `GetSelection` (`get_selection`). */
  function SelectionOf(mode: SelectionMode, name: Option<string>, files: seq<string>, file: Option<string>)
    : (r: Result<Selection, SelectionError>)
    ensures mode == Series ==> (r.Success? <==> name.Some? && files != [])
    ensures mode == Series && r.Success? ==> r.value == SeriesSelection(name.value, files)
    ensures mode == File ==> (r.Success? <==> file.Some? && file.value != "")
    ensures mode == File && r.Success? ==> r.value == FileSelection(file.value)
    ensures mode == File && file.None? ==> r == Failure(SelectedFileUnset)
  {
    match mode
    case Series =>
      if name.None? || files == [] then Failure(NoSeriesSelected) else Success(SeriesSelection(name.value, files))
    case File =>
      if file.None? then Failure(SelectedFileUnset)
      else if file.value == "" then Failure(NoFileSelected)
      else Success(FileSelection(file.value))
  }

  /**
    In SERIES mode an item of the treeview is accepted exactly when it is a
    series node; it then yields its label and the series' files, and the
    selection read back afterwards is that pair.
   */
  lemma SeriesModeConfirm(tree: DicomTree, n: Node, rest: seq<Node>)
    requires WellFormed(tree)
    requires n in TreeNodes(tree)
    ensures ConfirmOf(Series, Some(tree), [n] + rest).Accepted() <==> |n.values| == 3
    ensures |n.values| == 3 ==>
      var k := SeriesKey(n.values[0], n.values[1], n.values[2]);
      var c := ConfirmOf(Series, Some(tree), [n] + rest);
      c == SeriesConfirmed(n.text, Lookup(tree, k).value.files)
      && SelectionOf(Series, Some(c.name), c.files, None) == Success(SeriesSelection(n.text, Lookup(tree, k).value.files))
  {
    NodeArity(tree, n);
  }

  /**
    In FILE mode any item with a value is accepted, and what is stored is its
    first value: a file node gives its path, a series node its patient name, a
    study node raises.
   */
  lemma FileModeConfirm(tree: DicomTree, n: Node)
    requires WellFormed(tree)
    requires n in TreeNodes(tree)
    ensures ConfirmOf(File, Some(tree), [n]) == (if n.values == [] then NoValues else FileConfirmed(n.values[0]))
    ensures |n.values| == 3 ==> ConfirmOf(File, Some(tree), [n]) == FileConfirmed(n.values[0]) && n.values[0] in tree
    ensures |n.values| == 1 ==>
      exists p, s, se | p in tree && s in tree[p] && se in tree[p][s] :: ConfirmOf(File, Some(tree), [n]).file in tree[p][s][se].files
  {
    NodeArity(tree, n);
  }

  // ---------------------------------------------------------------------------
  // The chooser
  // ---------------------------------------------------------------------------

  class DicomChooser {
    const inputDir: string
    const selectionMode: SelectionMode
    var dicomTree: Option<DicomTree>
    var treeview: set<Node>
    var selectedName: Option<string>
    var selectedFiles: seq<string>
    var selectedFile: Option<string>   // None: the attribute has never been assigned
    var closed: bool                   // the popup window has been destroyed

    constructor (inputDir: string, selectionMode: SelectionMode)
      ensures this.inputDir == inputDir && this.selectionMode == selectionMode
      ensures dicomTree == None && treeview == {}
      ensures selectedName == None && selectedFiles == [] && selectedFile == None
      ensures !closed
    {
      this.inputDir := inputDir;
      this.selectionMode := selectionMode;
      dicomTree := None;
      treeview := {};
      selectedName := None;
      selectedFiles := [];
      selectedFile := None;
      closed := false;
    }

    /**
      `load_series_tree` over the scan of `inputDir`: with no input folder it
      only reports an error; otherwise it stores the grouped tree and inserts
      one item per study, series and file (the treeview is not cleared first).
     */
    method LoadSeriesTree(scan: seq<ScannedFile>) returns (loaded: bool)
      modifies this
      ensures loaded <==> inputDir != ""
      ensures loaded ==> dicomTree == Some(BuildTree(scan)) && treeview == old(treeview) + TreeNodes(BuildTree(scan))
      ensures !loaded ==> dicomTree == old(dicomTree) && treeview == old(treeview)
      ensures selectedName == old(selectedName) && selectedFiles == old(selectedFiles)
      ensures selectedFile == old(selectedFile) && closed == old(closed)
    {
      if inputDir == "" {
        return false;
      }
      var tree := ParseDicomDirectory(scan);
      dicomTree := Some(tree);
      InsertTree(tree);
      return true;
    }

    /** The loop over the patients of the tree. */
    method InsertTree(tree: DicomTree)
      modifies this`treeview
      ensures treeview == old(treeview) + TreeNodes(tree)
    {
      ghost var start := treeview;
      var patients := tree.Keys;
      while patients != {}
        invariant patients <= tree.Keys
        invariant treeview == start + PatientNodesIn(tree, tree.Keys - patients)
        decreases patients
      {
        var p :| p in patients;
        InsertPatient(tree, p);
        assert PatientNodesIn(tree, (tree.Keys - patients) + {p}) == PatientNodesIn(tree, tree.Keys - patients) + StudyNodesIn(p, tree[p], tree[p].Keys);
        assert (tree.Keys - patients) + {p} == tree.Keys - (patients - {p});
        patients := patients - {p};
      }
      assert tree.Keys - {} == tree.Keys;
    }

    method InsertPatient(tree: DicomTree, p: string)
      requires p in tree
      modifies this`treeview
      ensures treeview == old(treeview) + StudyNodesIn(p, tree[p], tree[p].Keys)
    {
      var studies := tree[p];
      ghost var start := treeview;
      var remaining := studies.Keys;
      while remaining != {}
        invariant remaining <= studies.Keys
        invariant treeview == start + StudyNodesIn(p, studies, studies.Keys - remaining)
        decreases remaining
      {
        var s :| s in remaining;
        InsertStudy(p, s, studies[s]);
        StudyNodesInAdd(p, studies, remaining, s);
        remaining := remaining - {s};
      }
      assert studies.Keys - {} == studies.Keys;
    }

    method InsertStudy(p: string, s: string, seriesMap: SeriesMap)
      modifies this`treeview
      ensures treeview == old(treeview) + StudyNodes(p, s, seriesMap)
    {
      treeview := treeview + {Node(StudyLabel(p, s), [])};
      ghost var start := treeview;
      var remaining := seriesMap.Keys;
      while remaining != {}
        invariant remaining <= seriesMap.Keys
        invariant treeview == start + SeriesNodesIn(p, s, seriesMap, seriesMap.Keys - remaining)
        decreases remaining
      {
        var se :| se in remaining;
        InsertSeries(p, s, se, seriesMap[se]);
        SeriesNodesInAdd(p, s, seriesMap, remaining, se);
        remaining := remaining - {se};
      }
      assert seriesMap.Keys - {} == seriesMap.Keys;
    }

    method InsertSeries(p: string, s: string, se: string, e: SeriesEntry)
      modifies this`treeview
      ensures treeview == old(treeview) + SeriesNodes(p, s, se, e)
    {
      treeview := treeview + {Node(SeriesLabel(se, e), [p, s, se])};
      InsertFiles(e.files);
    }

    /** The loop over one series' files: one item per path, named by its base name. */
    method InsertFiles(files: seq<string>)
      modifies this`treeview
      ensures treeview == old(treeview) + FileNodes(files)
    {
      ghost var start := treeview;
      var i := 0;
      while i < |files|
        invariant 0 <= i <= |files|
        invariant treeview == start + FileNodes(files[..i])
      {
        var dicomFile := files[i];
        treeview := treeview + {FileNode(dicomFile)};
        FileNodesPrefix(files, i);
        i := i + 1;
      }
      assert files[..|files|] == files;
    }

    /**
      `on_select_clicked` with the items currently selected: on a warning or an
      exception nothing changes; on success the selection is stored and the
      window is destroyed.
     */
    method OnSelectClicked(selection: seq<Node>) returns (outcome: Confirm)
      requires !closed
      modifies this
      ensures outcome == ConfirmOf(selectionMode, dicomTree, selection)
      ensures dicomTree == old(dicomTree) && treeview == old(treeview)
      ensures outcome.SeriesConfirmed? ==>
        selectedName == Some(outcome.name) && selectedFiles == outcome.files && selectedFile == old(selectedFile) && closed
      ensures outcome.FileConfirmed? ==>
        selectedFile == Some(outcome.file) && selectedName == old(selectedName) && selectedFiles == old(selectedFiles) && closed
      ensures !outcome.Accepted() ==>
        selectedName == old(selectedName) && selectedFiles == old(selectedFiles)
        && selectedFile == old(selectedFile) && closed == old(closed)
    {
      if selection == [] {
        return NothingSelected;
      }
      var selectedItem := selection[0];
      var itemValues := selectedItem.values;
      if selectionMode == Series {
        if |itemValues| < 3 {
          return InvalidSelection;
        }
        var patientName, studyUid, seriesUid := itemValues[0], itemValues[1], itemValues[2];
        if dicomTree.None? {
          return TreeNotLoaded;
        }
        var tree: DicomTree := dicomTree.value;
        if patientName !in tree || studyUid !in tree[patientName] || seriesUid !in tree[patientName][studyUid] {
          return SeriesKeyMissing;
        }
        selectedFiles := tree[patientName][studyUid][seriesUid].files;
        selectedName := Some(selectedItem.text);
        outcome := SeriesConfirmed(selectedItem.text, selectedFiles);
      } else {
        if itemValues == [] {
          return NoValues;
        }
        selectedFile := Some(itemValues[0]);
        outcome := FileConfirmed(itemValues[0]);
      }
      closed := true;
    }

    /** The specification of `GetSelection` (`get_selection`). */
    method GetSelection() returns (r: Result<Selection, SelectionError>)
      ensures r == SelectionOf(selectionMode, selectedName, selectedFiles, selectedFile)
      ensures selectionMode == Series ==>
        (r.Success? <==> selectedName.Some? && selectedFiles != [])
        && (r.Success? ==> r.value == SeriesSelection(selectedName.value, selectedFiles))
      ensures selectionMode == File ==>
        (r.Success? <==> selectedFile.Some? && selectedFile.value != "")
        && (r.Success? ==> r.value == FileSelection(selectedFile.value))
    {
      if selectionMode == Series {
        if selectedName.None? || selectedFiles == [] {
          return Failure(NoSeriesSelected);
        }
        return Success(SeriesSelection(selectedName.value, selectedFiles));
      } else {
        if selectedFile.None? {
          return Failure(SelectedFileUnset);
        }
        if selectedFile.value == "" {
          return Failure(NoFileSelected);
        }
        return Success(FileSelection(selectedFile.value));
      }
    }
  }

  /**
    A whole SERIES-mode session: a new chooser loads the scan, the user confirms
    a series node of the treeview, and the selection read back is that node's
    label with the files of its series, which are the series' readable files
    in discovery order.
   */
  method ChooseSeries(inputDir: string, scan: seq<ScannedFile>, picked: Node) returns (r: Result<Selection, SelectionError>)
    requires inputDir != ""
    requires picked in TreeNodes(BuildTree(scan)) && |picked.values| == 3
    ensures r.Success? && r.value.SeriesSelection?
    ensures var k := SeriesKey(picked.values[0], picked.values[1], picked.values[2]);
      r.value == SeriesSelection(picked.text, FilesWith(scan, k)) && FilesWith(scan, k) != []
  {
    var chooser := new DicomChooser(inputDir, Series);
    var loaded := chooser.LoadSeriesTree(scan);
    var tree := BuildTree(scan);
    BuildTreeWellFormed(scan);
    var k := SeriesKey(picked.values[0], picked.values[1], picked.values[2]);
    BuildTreeLookup(scan, k);
    SeriesModeConfirm(tree, picked, []);
    assert picked in chooser.treeview;
    var outcome := chooser.OnSelectClicked([picked]);
    r := chooser.GetSelection();
  }
}
