# CT QA Catphan helpers, modelled in Dafny

This project models the data-handling core of a CT phantom QA tool:

- **The result flattener** (`obj_helper.py`) walks a nested JSON result. It collects scalar leaves as key/value pairs whose keys are the ancestor path joined with `_`. Every character outside `[A-Za-z0-9_]` becomes `_`. The pairs come back sorted by key, and there are three variants: numbers, strings, and both.
- **The DICOM series index** (`dicom_helper.py`) groups scanned files into a patient → study → series tree. Each series keeps the modality and date/time of the first file seen for it, plus the file paths in discovery order.
- **The series chooser** (`dicom_chooser.py`) turns the tree into study, series and file nodes. It confirms the first selected node in SERIES or FILE mode and hands back the selection.
- **The result ledger** (`phantoms/helper.py`) adds device, operator, date, notes and configuration to the result object. It then appends one escaped CSV line per result to `results.csv`, writing the header only when the file is absent.
- **The telemetry conversion** (`model_helper.py`) turns the flattened pairs into measurement records. All records share one time stamp.

Files:

- `wrappers.dfy`: `Option` and `Result`.
- `pystr.dfy`: the Python string built-ins the core uses:
  - `join`, `split` and `replace`;
  - `str` of an integer;
  - `os.path.basename` as on Windows (`ntpath`).
- `obj_helper.dfy`, `dicom_helper.dfy`, `dicom_chooser.dfy`, `phantoms_helper.dfy` and `model_helper.dfy`: one module per core source file.

Where the source mutates state, the model is imperative:

- The flattener's shared result list is the field of a `Collector` object. A recursive method with a loop appends to it, and the method is proved against the specification function `Collect`.
- The DICOM grouping loop is a method proved equal to the fold `BuildTree`.
- The chooser is a class whose methods update the selection fields and the set of tree-view nodes.
- The result folder is a class holding `result.json` and the text of `results.csv`.
- The measurement conversion is a loop.

Throughout, the file system, the DICOM reader and the clock are inputs:

- a scan is a sequence of paths with an optional header;
- the current time is a string parameter.

## Model

| member | source | states |
|---|---|---|
| ObjHelper.PythonCompatibleKey | obj_helper.py:4-6 | same length as the input; every character is in `[A-Za-z0-9_]`; allowed characters are kept and every other one becomes `_` |
| ObjHelper.KeyIdempotent | obj_helper.py:6 | sanitising twice gives the same key as sanitising once |
| ObjHelper.KeyOfValidKey | obj_helper.py:6 | a key already in `[A-Za-z0-9_]*` is returned unchanged |
| ObjHelper.KeyAppend | obj_helper.py:6 | sanitising works character by character, so it distributes over concatenation |
| ObjHelper.FullKey | obj_helper.py:13-14 | a top-level key is only sanitised; under a non-empty, already sanitised parent it is `parent + "_" + sanitise(key)`; the result is always a valid key |
| ObjHelper.Leaves | obj_helper.py:12-19 | the leaves of a tree are never objects, and their keys are valid keys |
| ObjHelper.MemberLeaves | obj_helper.py:13-19 | the same, for the leaves under one member |
| ObjHelper.Collect | obj_helper.py:12-19 | every pair collected from an object has a sanitised key and a value the type filter keeps |
| ObjHelper.CollectMember | obj_helper.py:13-19 | every pair collected from one member has a sanitised key and a value the type filter keeps |
| ObjHelper.CollectIsKeptLeaves | obj_helper.py:12-19 | the collected list is exactly the leaves, in discovery order, that pass the type filter |
| ObjHelper.MemberIsKeptLeaves | obj_helper.py:16-19 | one member contributes exactly its own filtered leaves; a nested object contributes only the leaves beneath it |
| ObjHelper.KeptFromLeaves | obj_helper.py:16-17 | every collected pair passes the filter and is a leaf of the tree, with its value unchanged |
| ObjHelper.KeptBoth | obj_helper.py:46 | the leaves kept by the combined filter are, as a multiset, the numeric ones plus the string ones |
| ObjHelper.CollectAppend | obj_helper.py:12 | collecting the members of a concatenation is collecting each part in turn |
| ObjHelper.MemberContribution | obj_helper.py:12-19 | the i-th member's pairs sit between those of the members before it and after it |
| ObjHelper.KeyLeTotal | obj_helper.py:21 | the string order used for sorting is total |
| ObjHelper.KeyLeTrans | obj_helper.py:21 | the string order is transitive |
| ObjHelper.KeyLeAntisym | obj_helper.py:21 | the string order is antisymmetric |
| ObjHelper.SortByKey | obj_helper.py:21 | the sorted list is a permutation of its input: the same multiset, the same length |
| ObjHelper.Insert | obj_helper.py:21 | one insertion step of the sort adds exactly the inserted pair to the multiset |
| ObjHelper.InsertSorted | obj_helper.py:21 | inserting into a sorted list keeps it sorted |
| ObjHelper.InsertWithKey | obj_helper.py:21 | the inserted pair goes before the existing pairs with the same key |
| ObjHelper.SortByKeySpec | obj_helper.py:21 | the sort's output is sorted by key and a permutation of its input; for each key, pairs keep their original relative order (stability) |
| ObjHelper.FlattenSpec | obj_helper.py:8-21 | the flattened list is sorted; every entry has a valid key, passes the filter and is a leaf of the tree; its length and multiset equal those of the filtered leaves; for each key, entries are in discovery order |
| ObjHelper.Flatten | obj_helper.py:8-21 | the flattened list is a permutation of the collected pairs: the same multiset, the same length |
| ObjHelper.FlattenBoth | obj_helper.py:38-51 | the combined output is a permutation of the numbers output plus the strings output, so its length is their sum |
| ObjHelper.Collector.Traverse | obj_helper.py:12-19 | the loop over an object's items appends exactly `Collect(obj)` to the shared result list |
| ObjHelper.Collector.TraverseItem | obj_helper.py:13-19 | one item appends its kept leaf, or recurses into a nested object with the full key as parent |
| ObjHelper.TraverseAndCollect | obj_helper.py:8-21 | a fresh list, traversal, then the key sort yields `Flatten(obj, filter)` |
| ObjHelper.TraverseAndCollectNumbers | obj_helper.py:8-21 | the numbers variant returns `Flatten(obj, Numbers)`, which keeps bool, int and float leaves |
| ObjHelper.TraverseAndCollectStrings | obj_helper.py:23-36 | the strings variant returns `Flatten(obj, Strings)` |
| ObjHelper.TraverseAndCollectNumbersStrings | obj_helper.py:38-51 | the combined variant returns `Flatten(obj, NumbersStrings)` |
| DicomHelper.SeriesDatetime | dicom_helper.py:30-34 | the label is the date text, one space, then the time text, with `Unknown` standing in for a missing attribute |
| DicomHelper.SeriesDatetimeSplit | dicom_helper.py:34 | when neither part contains a space, splitting the label on the space gives back date and time |
| DicomHelper.ReadIdentity | dicom_helper.py:23-34 | a file is readable exactly when it has a header with patient, study, series and modality; its key and attributes are those fields |
| DicomHelper.ReadableFiles | dicom_helper.py:21-52 | the successfully read files are exactly the scanned files that are readable |
| DicomHelper.FirstInIffFiles | dicom_helper.py:41-46 | a series has a first file exactly when it has files, and that first file carries the series key |
| DicomHelper.AddFile | dicom_helper.py:37-48 | adding a file adds its patient to the patients, and its series then exists with the file's path as its last file |
| DicomHelper.Step | dicom_helper.py:21-52 | an unreadable file leaves the tree as it is; a readable one adds its patient, and its series then exists |
| DicomHelper.BuildTree | dicom_helper.py:17-54 | the patients of the tree are exactly the patient names of the readable scanned files |
| DicomHelper.PatientsSnoc | dicom_helper.py:17-37 | one more scanned file adds its patient name when it is readable, and nothing otherwise |
| DicomHelper.AddFileLookup | dicom_helper.py:37-48 | adding a file appends its path to its own series and creates the entry from this file only if none exists; every other series is unchanged |
| DicomHelper.BuildTreeLookup | dicom_helper.py:17-54 | each series of the tree holds its files in discovery order, with the modality and date/time of its first file; a key with no readable file has no entry |
| DicomHelper.FilesWithMembers | dicom_helper.py:48 | a path is listed under a series exactly when a readable scanned file with that path belongs to it |
| DicomHelper.FileIsListed | dicom_helper.py:37-48 | every readable file is listed under its own (patient, study, series) |
| DicomHelper.AddFileWellFormed | dicom_helper.py:37-48 | adding a file never leaves an empty patient map, study map or file list |
| DicomHelper.BuildTreeWellFormed | dicom_helper.py:17-54 | the built tree has no empty patient or study map and no series with an empty file list |
| DicomHelper.AddFileTotal | dicom_helper.py:48 | each added file raises the file total by exactly one |
| DicomHelper.TotalFilesIsReadableCount | dicom_helper.py:17-48 | the number of files across all series equals the number of successfully read files |
| DicomHelper.UnreadableSkipped | dicom_helper.py:50-52 | files that fail to read leave the tree as if they had not been scanned |
| DicomHelper.EmptyTreeIffNoneReadable | dicom_helper.py:7-54 | the tree is empty exactly when no file reads successfully |
| DicomHelper.ParseDicomDirectory | dicom_helper.py:6-54 | the grouping loop, with its three create-if-absent steps and the append, builds exactly `BuildTree(scan)` |
| DicomHelper.InsertFile | dicom_helper.py:37-48 | the three create-if-absent steps and the append, for one read file, give `AddFile` |
| Chooser.StudyLabel | dicom_chooser.py:91 | the study label is the patient name, then ` - `, then the study uid |
| Chooser.SeriesLabel | dicom_chooser.py:95-99 | the series label is, at their offsets, the modality, ` - `, the series date/time, ` - `, the series uid and ` (<file count> files)` |
| Chooser.FileNode | dicom_chooser.py:105-107 | a file item has the full path as its one value; its text is the base name: a separator-free tail of the path, preceded by a `/` or `\` or by a drive `X:`, and the whole rest after a drive when that rest has no separator |
| Chooser.TreeNodesChar | dicom_chooser.py:89-107 | a node is in `TreeNodes(tree)`, the items inserted for a tree, exactly when it is one of three kinds: a study node with no values, a series node valued `(patient, study, series)` of an existing series, or a file node valued by a listed path and named by its basename |
| Chooser.TreeNodeKind | dicom_chooser.py:89-107 | every inserted node is a study, series or file node |
| Chooser.NodeArity | dicom_chooser.py:91-107 | node values have length 0, 1 or 3; a three-valued node resolves in the tree to a non-empty series whose label it carries; a one-valued node holds a listed file |
| Chooser.ConfirmOf | dicom_chooser.py:153-183 | the outcome is `NothingSelected` exactly when nothing is selected, and `InvalidSelection` exactly when in SERIES mode the first node has fewer than three values; a confirmed series carries the first node's text and the files found at its three values; a confirmed file is the first value of the first node |
| Chooser.SelectionOf | dicom_chooser.py:188-198 | SERIES succeeds exactly with a name and a non-empty file list and returns them; FILE succeeds exactly with a set, non-empty file and fails when the file was never set |
| Chooser.SeriesModeConfirm | dicom_chooser.py:102-178 | in SERIES mode any node of the tree view is accepted exactly when it is a series node, which then resolves to that series' files, and the selection is then available |
| Chooser.FileModeConfirm | dicom_chooser.py:180-183 | in FILE mode the first value is stored without a granularity check; a series node yields its patient name, a file node yields a listed path |
| Chooser.DicomChooser.constructor | dicom_chooser.py:16-23 | a new chooser has no tree, no nodes, no selected name, an empty file list and no selected file |
| Chooser.DicomChooser.LoadSeriesTree | dicom_chooser.py:80-107 | with no input folder, nothing changes; otherwise the tree is `BuildTree(scan)` and every study, series and file node is added to the view |
| Chooser.DicomChooser.InsertTree | dicom_chooser.py:89-107 | the loop over the patients adds exactly `TreeNodes(tree)` |
| Chooser.DicomChooser.InsertPatient | dicom_chooser.py:90-107 | the loop over one patient's studies adds exactly those studies' nodes |
| Chooser.DicomChooser.InsertStudy | dicom_chooser.py:91-107 | adds the study node and the nodes of each of its series |
| Chooser.DicomChooser.InsertSeries | dicom_chooser.py:95-107 | adds the series node and one node per file |
| Chooser.DicomChooser.InsertFiles | dicom_chooser.py:105-107 | the loop over a series' files adds one file item per path |
| Chooser.StudyNodesInAdd | dicom_chooser.py:90-107 | inserting one more study adds that study's nodes to those already inserted |
| Chooser.SeriesNodesInAdd | dicom_chooser.py:94-107 | inserting one more series adds that series' nodes to those already inserted |
| Chooser.DicomChooser.OnSelectClicked | dicom_chooser.py:153-186 | the outcome is `ConfirmOf`; on success the selection is stored and the window closed, and on any rejection the selection state is untouched |
| Chooser.DicomChooser.GetSelection | dicom_chooser.py:188-200 | returns `SelectionOf` of the stored state and changes nothing |
| Chooser.ChooseSeries | dicom_chooser.py:172-193 | loading from a folder, then confirming any series node, returns that series' label and its full ordered file list |
| PhantomsHelper.ScalarToStr | phantoms/helper.py:90 | `str` of a bool is `True`/`False`, of an integer exactly `IntToStr` of it, and of a string the string itself |
| PhantomsHelper.Escape | phantoms/helper.py:90 | an escaped value contains no comma and no newline |
| PhantomsHelper.EscapeIsEscapeChars | phantoms/helper.py:90 | the two chained replaces equal a single character-by-character substitution |
| PhantomsHelper.UnescapeEscape | phantoms/helper.py:90 | for a value without `[`, the escape can be undone |
| PhantomsHelper.EscapeLossy | phantoms/helper.py:90 | a literal comma and a literal `[comma]` escape to the same text, so the escape is not injective |
| PhantomsHelper.Keys | phantoms/helper.py:86 | the header columns are the flattened keys, in flattened order |
| PhantomsHelper.Fields | phantoms/helper.py:90 | each value column is the escaped `str` of the pair's value, in order |
| PhantomsHelper.CsvLine | phantoms/helper.py:90-91 | a data line contains no newline |
| PhantomsHelper.CsvHeader | phantoms/helper.py:86-87 | a header of sanitised keys has no newline, and it splits on commas back into the keys |
| PhantomsHelper.KeysLack | phantoms/helper.py:86-87 | no sanitised key holds a character outside `[A-Za-z0-9_]`, such as a comma or a newline |
| PhantomsHelper.LineFields | phantoms/helper.py:90-91 | splitting a non-empty data line on commas gives exactly one field per pair |
| PhantomsHelper.HeaderFields | phantoms/helper.py:86-91 | the header splits back into its keys, with as many columns as the data line |
| PhantomsHelper.FlattenedColumns | phantoms/helper.py:83-91 | for a flattened result, header and line split into matching key and value columns, and the header has no newline |
| PhantomsHelper.FlattenedKeys | phantoms/helper.py:83 | every key from the flattener is a sanitised key |
| PhantomsHelper.LedgerAfter | phantoms/helper.py:99-104 | after one append the file ends with a newline and starts with the old text, or with the header when it was absent |
| PhantomsHelper.LedgerFrom | phantoms/helper.py:99-104 | appending never removes text: the old file is a prefix of the new one, and after any record the file exists |
| PhantomsHelper.LedgerFromSome | phantoms/helper.py:103-104 | appending records to an existing ledger adds exactly one line plus newline per record |
| PhantomsHelper.LedgerReplay | phantoms/helper.py:99-104 | from an absent file, k appends leave 1 + k lines: the first record's header, then one line per record, in order |
| PhantomsHelper.Get | phantoms/helper.py:52-53 | `d[key]` finds a value exactly when the key is present, and the member with that key and value is in the object |
| PhantomsHelper.SetKey | phantoms/helper.py:51-55 | after `d[key] = value` the object holds that member and has at most one member more |
| PhantomsHelper.SetKeyGet | phantoms/helper.py:51-55 | after a dict assignment the key reads back the assigned value |
| PhantomsHelper.SetKeyOther | phantoms/helper.py:51-55 | a dict assignment leaves every other key's value unchanged |
| PhantomsHelper.SetKeyKeys | phantoms/helper.py:51-55 | a dict assignment keeps an existing key in place and appends a new key at the end |
| PhantomsHelper.Enrich | phantoms/helper.py:51-55 | the enriched object holds `config` with the given value and has at most five members more |
| PhantomsHelper.EnrichSpec | phantoms/helper.py:50-55 | the enriched result has the five new values, overriding same-named keys; every other key is unchanged; the original keys stay first, in order, with at most five added |
| PhantomsHelper.ResultFolder.WriteLine | phantoms/helper.py:61-63 | writing truncates the file to the line and a newline |
| PhantomsHelper.ResultFolder.AppendLine | phantoms/helper.py:65-67 | appending adds the line and a newline, creating the file if absent |
| PhantomsHelper.ResultFolder.SaveResultAsJson | phantoms/helper.py:46-59 | a missing `Performed By` or `Performed Date` is a key error that writes nothing; otherwise `result.json` holds the enriched result |
| PhantomsHelper.ResultFolder.AppendResultToPhantomCsv | phantoms/helper.py:70-104 | without `result.json` it fails before touching the CSV; otherwise the file gains the header if it was absent and then exactly one line for the flattened result |
| ModelHelper.ConvertKvpsToMeasurement1d | model_helper.py:4-20 | one record per pair, in order, so empty in gives empty out; each has series id `prefix + key`, the pair's value unchanged, the one shared time, empty notes and `by`, and the given device and app |
| ModelHelper.MeasurementOf | model_helper.py:9-17 | the series id is the prefix followed by the key; value, time, device and app are those given |
| ModelHelper.PairsOfMeasurements | model_helper.py:8-18 | stripping the prefix from the records' series ids gives back the original pairs, keys and values, in order |
| PyStr.SplitJoin | phantoms/helper.py:87-91 | splitting a comma join of comma-free parts gives back the parts |
| PyStr.JoinEnds | phantoms/helper.py:87 | `sep.join(parts)` starts with the first part and ends with the last |
| PyStr.Split | phantoms/helper.py:87-91 | `split` gives at least one field, no field holds the separator, and joining the fields gives back the text |
| PyStr.ReplaceAllAppend | phantoms/helper.py:90 | replacing a character distributes over concatenation |
| PyStr.ReplaceAll | phantoms/helper.py:90 | after replacing a character by a text without it, the character is gone; a text without it is unchanged |
| PyStr.NatToStr | dicom_chooser.py:97-99 | the file count prints as digits with no leading zero |
| PyStr.ParseNatToStr | dicom_chooser.py:99 | the printed count reads back as the same number |
| PyStr.IntToStr | phantoms/helper.py:90 | `str` of an integer is a `-` exactly for a negative number, then digits with no leading zero that read back as the absolute value, so the text is unique |
| PyStr.AfterLastSep | dicom_chooser.py:106 | what follows the last `/` or `\` is a separator-free tail of the path, preceded by a separator unless it is the whole path |
| PyStr.Basename | dicom_chooser.py:106 | the Windows base name is a separator-free tail of the path, preceded by a `/` or `\` or by a leading drive `X:`; a path with neither is its own base name, and after a drive a separator-free rest is the base name |
| PyStr.AfterSep | dicom_chooser.py:106 | a separator followed by a separator-free tail leaves that tail as what follows the last separator |
| PyStr.BasenameBackslash | dicom_chooser.py:106 | a path mixing `/` and `\` after a drive has the part after the `\` as its base name |

## Left out

- Tk widgets, message boxes, the preview and property panes and `show` (`dicom_chooser.py` lines 25-78 and 109-151). The tree view is a set of nodes and the selection is a parameter. `window.destroy` is modelled as the `closed` flag.
- Chooser.DicomChooser.LoadSeriesTree: does not keep tree-view order. The view is a set, because Dafny maps are unordered and the dict insertion order of the tree is not modelled. Two nodes with equal text and values therefore collapse into one. The tree view is not cleared before a second load, as in the source.
- Tk stores item values as strings, and may convert numeric-looking ones. Values are modelled as the strings inserted.
- `pydicom.dcmread`, `os.listdir`, `os.walk` and `os.path.join`. The scan is an input: each path comes with an optional header. A file `dcmread` cannot read has no header. A header that lacks one of the four mandatory attributes has that field absent, and `ReadIdentity` rejects it, as the `AttributeError` in the source does. The `include_subfolders` choice only changes which paths are scanned, so it is part of that input.
- `read_dicom_image` and `get_dicom_image`: numpy floating-point image normalisation.
- PhantomsHelper.ScalarToStr: a float carries the text Python's `str` gives for it, so float formatting is not modelled.
- JSON text: `json.loads(json.dumps(vars(result), default=obj_serializer))`, `json.load`, the indented `json.dump`, and `util.obj_serializer`. A result is a model JSON value. The folder holds `result.json` as a value and `results.csv` as text. One folder object stands for both the output directory and its parent.
- Logging through `log_message` and `print`, plus `save_result_as_pdf`, `save_result_as_txt`, `copy_logo`, `push_to_server`, the web-service client, `makeicon` and the pylinac analysis modules. These are file, network or foreign-library work.
- The demo block of `obj_helper.py` (lines 54-79).
- ObjHelper.TraverseAndCollect: the optional arguments `parent_key=''` and `result=None` (obj_helper.py lines 8, 23 and 38) are fixed to the empty key and a fresh list, because only the recursive call passes them, and `Collector.Traverse` models that call. An outside call that passes its own list is not modelled.
- The clock: `datetime.now().isoformat()` is a string parameter of `ModelHelper.ConvertKvpsToMeasurement1d`, read once as in the source.
- In FILE mode the source stores the first value of any node, with no granularity check. A series node therefore yields its patient name. The model follows the code: FILE mode stores `values[0]` of any node.
- An exception in `on_select_clicked` (a missing key, no tree loaded, or no values in FILE mode) is a distinct outcome that leaves the state unchanged. `get_selection` on a chooser that never had `selected_file` set is a distinct error. The source raises an `AttributeError` there, because `__init__` does not initialise that field.
- PyStr.Basename: a UNC path such as `\\server\share` has the empty base name in Python, because `ntpath` sets aside the whole `\\server\share` drive. The model sets aside only a two-character drive `X:`, so it gives `share`. Other forms of `ntpath.splitdrive` are not modelled either.
- Chooser.DicomChooser.OnSelectClicked: requires an open window, because after `window.destroy` the Select button cannot be clicked again.
- `model_helper.py` line 11 nests single quotes inside a single-quoted f-string. That parses only from Python 3.12. The model assumes Python 3.12 or later.
