/**
  Grouping of scanned DICOM files into a patient → study → series tree
  (`parse_dicom_directory`).

  Reading a file is not modelled: the scan is given as the sequence of files
  found, in discovery order, each with the header the reader produced or
  `None` when the read raised. A header attribute that is absent is `None`.
 */
module DicomHelper {
  import opened Wrappers
  import opened PyStr

  /** The data elements the grouping reads (section 6 of DICOM PS3.6), as their string conversions. */
  datatype Dataset = Dataset(
    patientName: Option<string>,        // (0010,0010)
    studyInstanceUid: Option<string>,   // (0020,000D)
    seriesInstanceUid: Option<string>,  // (0020,000E)
    modality: Option<string>,           // (0008,0060)
    seriesDate: Option<string>,         // (0008,0021)
    seriesTime: Option<string>)         // (0008,0031)

  /** One file of the scan: its joined path and its header, `None` when reading it raised. */
  datatype ScannedFile = ScannedFile(path: string, header: Option<Dataset>)

  /** Where a series lives in the tree. */
  datatype SeriesKey = SeriesKey(patient: string, study: string, series: string)

  /** What the grouping extracts from one readable file, before it touches the tree. */
  datatype Identity = Identity(key: SeriesKey, modality: string, seriesDatetime: string)

  /** The leaf record `{'files': [...], 'modality': ..., 'series_datetime': ...}`. */
  datatype SeriesEntry = SeriesEntry(files: seq<string>, modality: string, seriesDatetime: string)

  type SeriesMap = map<string, SeriesEntry>
  type StudyMap = map<string, SeriesMap>
  type DicomTree = map<string, StudyMap>

  const Unknown: string := "Unknown"

  /** `f"{series_date} {series_time}"`, each part defaulting to "Unknown" when the element is absent. */
  function SeriesDatetime(date: Option<string>, time: Option<string>): (r: string)
    ensures |r| == |date.GetOr(Unknown)| + 1 + |time.GetOr(Unknown)|
    ensures r[|date.GetOr(Unknown)|] == ' '
    ensures r[..|date.GetOr(Unknown)|] == date.GetOr(Unknown) && r[|date.GetOr(Unknown)| + 1..] == time.GetOr(Unknown)
  {
    date.GetOr(Unknown) + " " + time.GetOr(Unknown)
  }

  /**
    The label splits back into its date and its time when neither contains a
    space (DICOM DA and TM values never do).
   */
  lemma SeriesDatetimeSplit(date: Option<string>, time: Option<string>)
    requires ' ' !in date.GetOr(Unknown) && ' ' !in time.GetOr(Unknown)
    ensures Split(SeriesDatetime(date, time), ' ') == [date.GetOr(Unknown), time.GetOr(Unknown)]
  {
    var d, t := date.GetOr(Unknown), time.GetOr(Unknown);
    assert Join([d, t], ' ') == SeriesDatetime(date, time) by {
      assert Join([t], ' ') == t;
    }
    SplitJoin([d, t], ' ');
  }

  /**
    The extraction step: `None` exactly when the read raised or one of the four
    mandatory attributes is missing (an AttributeError, caught like a read error).
   */
  function ReadIdentity(f: ScannedFile): (r: Option<Identity>)
    ensures r.Some? <==>
      f.header.Some? && f.header.value.patientName.Some? && f.header.value.studyInstanceUid.Some?
      && f.header.value.seriesInstanceUid.Some? && f.header.value.modality.Some?
    ensures r.Some? ==>
      var ds := f.header.value;
      r.value.key == SeriesKey(ds.patientName.value, ds.studyInstanceUid.value, ds.seriesInstanceUid.value)
      && r.value.modality == ds.modality.value
      && r.value.seriesDatetime == SeriesDatetime(ds.seriesDate, ds.seriesTime)
  {
    match f.header
    case None => None
    case Some(ds) =>
      if ds.patientName.None? || ds.studyInstanceUid.None? || ds.seriesInstanceUid.None? || ds.modality.None? then None
      else Some(Identity(
        SeriesKey(ds.patientName.value, ds.studyInstanceUid.value, ds.seriesInstanceUid.value),
        ds.modality.value, SeriesDatetime(ds.seriesDate, ds.seriesTime)))
  }

  predicate Readable(f: ScannedFile)
  {
    ReadIdentity(f).Some?
  }

  // ---------------------------------------------------------------------------
  // The tree and its specification
  // ---------------------------------------------------------------------------

  /** `dicom_tree[p][s][se]`, if every level is present. */
  function Lookup(tree: DicomTree, k: SeriesKey): Option<SeriesEntry>
  {
    if k.patient in tree && k.study in tree[k.patient] && k.series in tree[k.patient][k.study]
    then Some(tree[k.patient][k.study][k.series])
    else None
  }

  /**
    One readable file entered into the tree: missing levels are created, a new
    series takes its modality and date-time from this file, and the path is
    appended to the series' file list.
   */
  function AddFile(tree: DicomTree, id: Identity, path: string): (r: DicomTree)
    ensures r.Keys == tree.Keys + {id.key.patient}
    ensures Lookup(r, id.key).Some? && |Lookup(r, id.key).value.files| > 0
    ensures var files := Lookup(r, id.key).value.files; files[|files| - 1] == path
  {
    var k := id.key;
    var studies := if k.patient in tree then tree[k.patient] else map[];
    var seriesMap := if k.study in studies then studies[k.study] else map[];
    var entry := if k.series in seriesMap then seriesMap[k.series] else SeriesEntry([], id.modality, id.seriesDatetime);
    tree[k.patient := studies[k.study := seriesMap[k.series := entry.(files := entry.files + [path])]]]
  }

  /** One scanned file: a readable one is added, an unreadable one leaves the tree as it is. */
  function Step(tree: DicomTree, f: ScannedFile): (r: DicomTree)
    ensures !Readable(f) ==> r == tree
    ensures Readable(f) ==>
      r.Keys == tree.Keys + {ReadIdentity(f).value.key.patient} && Lookup(r, ReadIdentity(f).value.key).Some?
  {
    match ReadIdentity(f)
    case None => tree
    case Some(id) => AddFile(tree, id, f.path)
  }

  /** The tree after the scan, starting from `{}`. */
  function BuildTree(scan: seq<ScannedFile>): (r: DicomTree)
    ensures r.Keys == Patients(scan)
  {
    if scan == [] then map[]
    else
      PatientsSnoc(scan);
      Step(BuildTree(scan[..|scan| - 1]), scan[|scan| - 1])
  }

  /** The patient names of the readable files of the scan. */
  function Patients(scan: seq<ScannedFile>): set<string>
  {
    set i | 0 <= i < |scan| && Readable(scan[i]) :: ReadIdentity(scan[i]).value.key.patient
  }

  lemma PatientsSnoc(scan: seq<ScannedFile>)
    requires scan != []
    ensures var last := scan[|scan| - 1];
      Patients(scan) == Patients(scan[..|scan| - 1]) + (if Readable(last) then {ReadIdentity(last).value.key.patient} else {})
  {
    var n := |scan| - 1;
    var front := scan[..n];
    forall p | p in Patients(scan) ensures p in Patients(front) || (Readable(scan[n]) && p == ReadIdentity(scan[n]).value.key.patient) {
      var i :| 0 <= i < |scan| && Readable(scan[i]) && ReadIdentity(scan[i]).value.key.patient == p;
      if i < n {
        assert front[i] == scan[i];
      }
    }
    forall p | p in Patients(front) ensures p in Patients(scan) {
      var i :| 0 <= i < n && Readable(front[i]) && ReadIdentity(front[i]).value.key.patient == p;
      assert scan[i] == front[i];
    }
    if Readable(scan[n]) {
      assert ReadIdentity(scan[n]).value.key.patient in Patients(scan);
    }
  }

  // Reference definitions read off the scan alone.

  predicate InSeries(f: ScannedFile, k: SeriesKey)
  {
    ReadIdentity(f).Some? && ReadIdentity(f).value.key == k
  }

  /** The paths of the readable files of series `k`, in discovery order. */
  function FilesWith(scan: seq<ScannedFile>, k: SeriesKey): seq<string>
  {
    if scan == [] then []
    else FilesWith(scan[..|scan| - 1], k) + (if InSeries(scan[|scan| - 1], k) then [scan[|scan| - 1].path] else [])
  }

  /** What is extracted from the first readable file of series `k`. */
  function FirstIn(scan: seq<ScannedFile>, k: SeriesKey): Option<Identity>
  {
    if scan == [] then None
    else if FirstIn(scan[..|scan| - 1], k).Some? then FirstIn(scan[..|scan| - 1], k)
    else if InSeries(scan[|scan| - 1], k) then ReadIdentity(scan[|scan| - 1])
    else None
  }

  /** The readable files of the scan, in order. */
  function ReadableFiles(scan: seq<ScannedFile>): (r: seq<ScannedFile>)
    ensures |r| <= |scan|
    ensures forall f :: f in r <==> f in scan && Readable(f)
  {
    if scan == [] then []
    else ReadableFiles(scan[..|scan| - 1]) + (if Readable(scan[|scan| - 1]) then [scan[|scan| - 1]] else [])
  }

  /** The entry the reference definitions predict for series `k`. */
  function Expected(scan: seq<ScannedFile>, k: SeriesKey): Option<SeriesEntry>
  {
    if FilesWith(scan, k) == [] || FirstIn(scan, k).None? then None
    else Some(SeriesEntry(FilesWith(scan, k), FirstIn(scan, k).value.modality, FirstIn(scan, k).value.seriesDatetime))
  }

  lemma {:induction false} FirstInIffFiles(scan: seq<ScannedFile>, k: SeriesKey)
    ensures FirstIn(scan, k).Some? <==> FilesWith(scan, k) != []
    ensures FirstIn(scan, k).Some? ==> FirstIn(scan, k).value.key == k
  {
    if scan != [] {
      FirstInIffFiles(scan[..|scan| - 1], k);
    }
  }

  /** Adding a file changes the series it belongs to and no other. */
  lemma AddFileLookup(tree: DicomTree, id: Identity, path: string, k: SeriesKey)
    ensures Lookup(AddFile(tree, id, path), k) ==
      if k == id.key then
        var old_ := Lookup(tree, k);
        var entry := if old_.Some? then old_.value else SeriesEntry([], id.modality, id.seriesDatetime);
        Some(entry.(files := entry.files + [path]))
      else Lookup(tree, k)
  {
  }

  /**
    Every series of the tree is exactly what the scan predicts: it exists iff
    some readable file belongs to it, its files are the paths of those files in
    discovery order (so each readable file is listed in its own series), and
    its modality and date-time come from the first of them.
   */
  lemma {:induction false} BuildTreeLookup(scan: seq<ScannedFile>, k: SeriesKey)
    ensures Lookup(BuildTree(scan), k) == Expected(scan, k)
  {
    if scan != [] {
      var init, f := scan[..|scan| - 1], scan[|scan| - 1];
      BuildTreeLookup(init, k);
      FirstInIffFiles(init, k);
      assert BuildTree(scan) == Step(BuildTree(init), f);
      match ReadIdentity(f)
      case None =>
        assert !InSeries(f, k);
        assert FilesWith(scan, k) == FilesWith(init, k) + [];
        assert FilesWith(init, k) + [] == FilesWith(init, k);
        assert FirstIn(scan, k) == FirstIn(init, k);
      case Some(id) =>
        AddFileLookup(BuildTree(init), id, f.path, k);
        if id.key == k {
          assert FilesWith(scan, k) == FilesWith(init, k) + [f.path];
          if FirstIn(init, k).None? {
            assert FirstIn(scan, k) == Some(id);
            assert FilesWith(init, k) == [];
          }
        } else {
          assert !InSeries(f, k);
          assert FilesWith(scan, k) == FilesWith(init, k) + [];
          assert FilesWith(init, k) + [] == FilesWith(init, k);
        }
    }
  }

  /** A path is listed under series `k` exactly when some readable file of series `k` has it. */
  lemma {:induction false} FilesWithMembers(scan: seq<ScannedFile>, k: SeriesKey, path: string)
    ensures path in FilesWith(scan, k) <==> exists i :: 0 <= i < |scan| && scan[i].path == path && InSeries(scan[i], k)
  {
    if scan != [] {
      var init := scan[..|scan| - 1];
      FilesWithMembers(init, k, path);
      if path in FilesWith(init, k) {
        var i :| 0 <= i < |init| && init[i].path == path && InSeries(init[i], k);
        assert scan[i] == init[i];
      }
      if exists i :: 0 <= i < |scan| && scan[i].path == path && InSeries(scan[i], k) {
        var i :| 0 <= i < |scan| && scan[i].path == path && InSeries(scan[i], k);
        if i < |init| {
          assert init[i] == scan[i];
        }
      }
    }
  }

  /** Each readable file is listed, in the series of its own header. */
  lemma FileIsListed(scan: seq<ScannedFile>, i: nat)
    requires i < |scan| && Readable(scan[i])
    ensures var k := ReadIdentity(scan[i]).value.key;
      Lookup(BuildTree(scan), k).Some? && scan[i].path in Lookup(BuildTree(scan), k).value.files
  {
    var k := ReadIdentity(scan[i]).value.key;
    FilesWithMembers(scan, k, scan[i].path);
    BuildTreeLookup(scan, k);
    FirstInIffFiles(scan, k);
  }

  // ---------------------------------------------------------------------------
  // Shape: no empty level is ever created
  // ---------------------------------------------------------------------------

  predicate SeriesMapOk(series: SeriesMap)
  {
    series != map[] && forall se | se in series :: series[se].files != []
  }

  predicate StudyMapOk(studies: StudyMap)
  {
    studies != map[] && forall s | s in studies :: SeriesMapOk(studies[s])
  }

  /** No empty patient or study map and no empty file list anywhere in the tree. */
  predicate WellFormed(tree: DicomTree)
  {
    forall p | p in tree :: StudyMapOk(tree[p])
  }

  lemma AddFileWellFormed(tree: DicomTree, id: Identity, path: string)
    requires WellFormed(tree)
    ensures WellFormed(AddFile(tree, id, path))
  {
    var k := id.key;
    var t := AddFile(tree, id, path);
    assert SeriesMapOk(t[k.patient][k.study]);
    assert StudyMapOk(t[k.patient]);
  }

  lemma {:induction false} BuildTreeWellFormed(scan: seq<ScannedFile>)
    ensures WellFormed(BuildTree(scan))
  {
    if scan != [] {
      var init, f := scan[..|scan| - 1], scan[|scan| - 1];
      BuildTreeWellFormed(init);
      if Readable(f) {
        AddFileWellFormed(BuildTree(init), ReadIdentity(f).value, f.path);
      }
    }
  }

  // ---------------------------------------------------------------------------
  // Conservation: every readable file is counted once
  // ---------------------------------------------------------------------------

  /** The sum of `f` over the values of a map. */
  ghost function Sum<X>(m: map<string, X>, f: X -> nat): nat
    decreases |m|
  {
    if |m| == 0 then 0 else var k := Pick(m); f(m[k]) + Sum(m - {k}, f)
  }

  /** Some key of a non-empty map. */
  ghost function Pick<X>(m: map<string, X>): (k: string)
    requires |m| > 0
    ensures k in m
  {
    var k :| k in m; k
  }

  lemma {:induction false} SumRemove<X>(m: map<string, X>, f: X -> nat, k: string)
    requires k in m
    ensures Sum(m, f) == f(m[k]) + Sum(m - {k}, f)
    decreases |m|
  {
    var j := Pick(m);
    if j != k {
      assert (m - {j}).Keys == m.Keys - {j};
      assert (m - {k}).Keys == m.Keys - {k};
      SumRemove(m - {j}, f, k);
      SumRemove(m - {k}, f, j);
      assert m - {j} - {k} == m - {k} - {j};
    }
  }

  /** Replacing or adding the value at `k` changes the sum by the difference. */
  lemma SumUpdate<X>(m: map<string, X>, f: X -> nat, k: string, v: X)
    ensures Sum(m[k := v], f) == Sum(m, f) - (if k in m then f(m[k]) else 0) + f(v)
  {
    SumRemove(m[k := v], f, k);
    assert m[k := v] - {k} == m - {k};
    if k in m {
      SumRemove(m, f, k);
    } else {
      assert m - {k} == m;
    }
  }

  function FileCount(e: SeriesEntry): nat
  {
    |e.files|
  }

  ghost function StudyTotal(series: SeriesMap): nat
  {
    Sum(series, FileCount)
  }

  ghost function PatientTotal(studies: StudyMap): nat
  {
    Sum(studies, StudyTotal)
  }

  /** The number of paths listed anywhere in the tree. */
  ghost function TotalFiles(tree: DicomTree): nat
  {
    Sum(tree, PatientTotal)
  }

  lemma AddFileTotal(tree: DicomTree, id: Identity, path: string)
    ensures TotalFiles(AddFile(tree, id, path)) == TotalFiles(tree) + 1
  {
    var k := id.key;
    var studies := if k.patient in tree then tree[k.patient] else map[];
    var seriesMap := if k.study in studies then studies[k.study] else map[];
    var entry := if k.series in seriesMap then seriesMap[k.series] else SeriesEntry([], id.modality, id.seriesDatetime);
    var entry' := entry.(files := entry.files + [path]);
    SumUpdate(seriesMap, FileCount, k.series, entry');
    assert StudyTotal(seriesMap[k.series := entry']) == StudyTotal(seriesMap) + 1;
    SumUpdate(studies, StudyTotal, k.study, seriesMap[k.series := entry']);
    assert PatientTotal(studies[k.study := seriesMap[k.series := entry']]) == PatientTotal(studies) + 1;
    SumUpdate(tree, PatientTotal, k.patient, studies[k.study := seriesMap[k.series := entry']]);
  }

  /** The files listed across all series are as many as the readable files of the scan. */
  lemma {:induction false} TotalFilesIsReadableCount(scan: seq<ScannedFile>)
    ensures TotalFiles(BuildTree(scan)) == |ReadableFiles(scan)|
  {
    if scan != [] {
      var init, f := scan[..|scan| - 1], scan[|scan| - 1];
      TotalFilesIsReadableCount(init);
      if Readable(f) {
        AddFileTotal(BuildTree(init), ReadIdentity(f).value, f.path);
      }
    }
  }

  /** Unreadable files are skipped: the tree is the one built from the readable files alone. */
  lemma {:induction false} UnreadableSkipped(scan: seq<ScannedFile>)
    ensures BuildTree(scan) == BuildTree(ReadableFiles(scan))
  {
    if scan != [] {
      var init, f := scan[..|scan| - 1], scan[|scan| - 1];
      UnreadableSkipped(init);
      var r := ReadableFiles(init);
      if Readable(f) {
        assert ReadableFiles(scan) == r + [f];
        assert (r + [f])[..|r + [f]| - 1] == r;
      } else {
        assert ReadableFiles(scan) == r + [];
        assert r + [] == r;
      }
    }
  }

  /** The tree is empty exactly when no file of the scan is readable. */
  lemma EmptyTreeIffNoneReadable(scan: seq<ScannedFile>)
    ensures BuildTree(scan) == map[] <==> ReadableFiles(scan) == []
  {
    var t := BuildTree(scan);
    if t != map[] {
      var p :| p in t;
      var i :| 0 <= i < |scan| && Readable(scan[i]) && ReadIdentity(scan[i]).value.key.patient == p;
      assert scan[i] in ReadableFiles(scan);
    }
    if ReadableFiles(scan) != [] {
      var f := ReadableFiles(scan)[0];
      assert f in ReadableFiles(scan);
      var i :| 0 <= i < |scan| && scan[i] == f;
      assert ReadIdentity(f).value.key.patient in Patients(scan);
    }
  }

  // ---------------------------------------------------------------------------
  // The loop
  // ---------------------------------------------------------------------------

  /** `parse_dicom_directory` over an already listed scan. */
  method ParseDicomDirectory(scan: seq<ScannedFile>) returns (tree: DicomTree)
    ensures tree == BuildTree(scan)
  {
    tree := map[];
    var i := 0;
    while i < |scan|
      invariant 0 <= i <= |scan|
      invariant tree == BuildTree(scan[..i])
    {
      var file := scan[i];
      assert scan[..i + 1][..i] == scan[..i];
      assert BuildTree(scan[..i + 1]) == Step(tree, file);
      var read := ReadIdentity(file);
      if read.Some? {
        assert Step(tree, file) == AddFile(tree, read.value, file.path);
        tree := InsertFile(tree, read.value, file.path);
      }
      i := i + 1;
    }
    assert scan[..|scan|] == scan;
  }

  /**
    The body of the loop for one readable file: the three create-if-absent
    steps, then the append to the series' file list.
   */
  method InsertFile(tree0: DicomTree, id: Identity, path: string) returns (tree: DicomTree)
    ensures tree == AddFile(tree0, id, path)
  {
    tree := tree0;
    var patient, study, series := id.key.patient, id.key.study, id.key.series;
    ghost var studies := if patient in tree0 then tree0[patient] else map[];
    ghost var seriesMap := if study in studies then studies[study] else map[];
    ghost var first := if series in seriesMap then seriesMap[series] else SeriesEntry([], id.modality, id.seriesDatetime);
    if patient !in tree {
      tree := tree[patient := map[]];
    } else {
      assert tree0[patient := studies] == tree0;
    }
    assert tree == tree0[patient := studies];
    if study !in tree[patient] {
      tree := tree[patient := tree[patient][study := map[]]];
    } else {
      assert studies[study := seriesMap] == studies;
    }
    assert tree == tree0[patient := studies[study := seriesMap]];
    if series !in tree[patient][study] {
      tree := tree[patient := tree[patient][study := tree[patient][study][series := SeriesEntry([], id.modality, id.seriesDatetime)]]];
      assert tree[patient] == studies[study := seriesMap[series := first]];
    } else {
      assert seriesMap[series := first] == seriesMap;
    }
    assert tree == tree0[patient := studies[study := seriesMap[series := first]]];
    var entry := tree[patient][study][series];
    assert entry == first;
    ghost var added := first.(files := first.files + [path]);
    assert seriesMap[series := first][series := added] == seriesMap[series := added];
    assert studies[study := seriesMap[series := first]][study := seriesMap[series := added]] == studies[study := seriesMap[series := added]];
    tree := tree[patient := tree[patient][study := tree[patient][study][series := entry.(files := entry.files + [path])]]];
    assert tree[patient] == studies[study := seriesMap[series := added]];
  }
}
