/**
  The result files of a phantom analysis (`phantoms/helper.py`): enriching the
  result object before it is saved as `result.json`, and appending the
  flattened result as one line of the `results.csv` ledger.

  The two files are the fields of a `ResultFolder`: `result.json` holds the
  JSON value it was written with, `results.csv` its text. Either may be
  absent. JSON text encoding and decoding is not modelled.
 */
module PhantomsHelper {
  import opened Wrappers
  import opened PyStr
  import opened ObjHelper

  // ---------------------------------------------------------------------------
  // One CSV field: str(value) with the two escapes
  // ---------------------------------------------------------------------------

  /** Python's `str(value)` for a flattened scalar; a float prints as the text it carries. */
  function ScalarToStr(v: Scalar): (r: string)
    ensures v.Bool? ==> (r == "True" <==> v.b) && (r == "False" <==> !v.b)
    ensures v.Int? && v.i >= 0 ==> ParseNat(r) == v.i
    ensures v.Int? ==> r != [] && (r[0] == '-' <==> v.i < 0)
    ensures v.Int? && v.i < 0 ==> ParseNat(r[1..]) == -v.i
    ensures v.Int? ==> r == IntToStr(v.i)
    ensures v.Str? ==> r == v.s
  {
    match v
    case Bool(b) => if b then "True" else "False"
    case Int(i) => IntToStr(i)
    case Float(repr) => repr
    case Str(s) => s
  }

  const Comma: string := "[comma]"
  const Newline: string := "[newline]"

  /** `.replace(',', '[comma]').replace('\n', '[newline]')`. */
  function Escape(t: string): (r: string)
    ensures ',' !in r && '\n' !in r
  {
    var once := ReplaceAll(t, ',', Comma);
    assert ',' !in once;
    ReplaceAll(once, '\n', Newline)
  }

  /** The two passes at once: each comma and each newline replaced, in place. */
  function EscapeChars(t: string): string
  {
    if t == [] then []
    else (if t[0] == ',' then Comma else if t[0] == '\n' then Newline else [t[0]]) + EscapeChars(t[1..])
  }

  lemma {:induction false} EscapeIsEscapeChars(t: string)
    ensures Escape(t) == EscapeChars(t)
  {
    if t != [] {
      EscapeIsEscapeChars(t[1..]);
      var head := if t[0] == ',' then Comma else [t[0]];
      var rest := ReplaceAll(t[1..], ',', Comma);
      assert ReplaceAll(t, ',', Comma) == head + rest;
      ReplaceAllAppend(head, rest, '\n', Newline);
      assert ReplaceAll(head, '\n', Newline) == (if t[0] == ',' then Comma else if t[0] == '\n' then Newline else [t[0]]) by {
        if t[0] != ',' {
          assert head[1..] == [];
        }
      }
    }
  }

  /** The reverse of the escapes: `[comma]` and `[newline]` become the characters again. */
  function Unescape(r: string): string
  {
    if r == [] then []
    else if |r| >= |Comma| && r[..|Comma|] == Comma then "," + Unescape(r[|Comma|..])
    else if |r| >= |Newline| && r[..|Newline|] == Newline then "\n" + Unescape(r[|Newline|..])
    else [r[0]] + Unescape(r[1..])
  }

  /** A value that contains no `[` is recovered from its escaped field. */
  lemma {:induction false} UnescapeEscape(t: string)
    requires '[' !in t
    ensures Unescape(Escape(t)) == t
  {
    EscapeIsEscapeChars(t);
    UnescapeEscapeChars(t);
  }

  lemma {:induction false} UnescapeEscapeChars(t: string)
    requires '[' !in t
    ensures Unescape(EscapeChars(t)) == t
  {
    if t != [] {
      var rest := EscapeChars(t[1..]);
      UnescapeEscapeChars(t[1..]);
      var e := EscapeChars(t);
      if t[0] == ',' {
        assert e == Comma + rest;
        assert e[..|Comma|] == Comma && e[|Comma|..] == rest;
      } else if t[0] == '\n' {
        assert e == Newline + rest;
        assert e[..|Comma|] != Comma by {
          assert e[1] == 'n' != Comma[1];
        }
        assert e[..|Newline|] == Newline && e[|Newline|..] == rest;
      } else {
        assert e == [t[0]] + rest;
        assert e[0] != '[';
        assert e[1..] == rest;
      }
      assert t == [t[0]] + t[1..];
    }
  }

  /** The escapes are not reversible in general: a literal `[comma]` and a comma give the same field. */
  lemma EscapeLossy()
    ensures Escape(",") == Escape(Comma) == Comma
  {
    EscapeIsEscapeChars(",");
    EscapeIsEscapeChars(Comma);
    assert EscapeChars(",") == Comma + EscapeChars("");
    assert Comma == ['['] + "comma]";
  }

  // ---------------------------------------------------------------------------
  // Header and data line of one record
  // ---------------------------------------------------------------------------

  function Keys(kvps: seq<KeyValue>): (r: seq<string>)
    ensures |r| == |kvps| && forall i :: 0 <= i < |kvps| ==> r[i] == kvps[i].key
  {
    seq(|kvps|, i requires 0 <= i < |kvps| => kvps[i].key)
  }

  function Fields(kvps: seq<KeyValue>): (r: seq<string>)
    ensures |r| == |kvps| && forall i :: 0 <= i < |kvps| ==> r[i] == Escape(ScalarToStr(kvps[i].value))
  {
    seq(|kvps|, i requires 0 <= i < |kvps| => Escape(ScalarToStr(kvps[i].value)))
  }

  /**
    `','.join(keys)`. Sanitised keys hold neither a comma nor a newline, so the
    header is one line and splits back into the keys.
   */
  function CsvHeader(kvps: seq<KeyValue>): (r: string)
    ensures KeysAreKeys(kvps) ==> '\n' !in r
    ensures kvps != [] && KeysAreKeys(kvps) ==> Split(r, ',') == Keys(kvps)
  {
    if KeysAreKeys(kvps) then
      KeysLack(kvps, '\n');
      KeysLack(kvps, ',');
      JoinNoChar(Keys(kvps), ',', '\n');
      if kvps != [] then SplitJoin(Keys(kvps), ','); Join(Keys(kvps), ',')
      else Join(Keys(kvps), ',')
    else Join(Keys(kvps), ',')
  }

  /** No sanitised key holds a character outside the key alphabet. */
  lemma KeysLack(kvps: seq<KeyValue>, c: char)
    requires KeysAreKeys(kvps) && !IsKeyChar(c)
    ensures forall i :: 0 <= i < |Keys(kvps)| ==> c !in Keys(kvps)[i]
  {
    forall i | 0 <= i < |kvps| ensures c !in kvps[i].key {
      KeyLacks(kvps[i].key, c);
    }
  }

  /** `','.join(values)`. */
  function CsvLine(kvps: seq<KeyValue>): (r: string)
    ensures '\n' !in r
  {
    JoinNoChar(Fields(kvps), ',', '\n');
    Join(Fields(kvps), ',')
  }

  predicate KeysAreKeys(kvps: seq<KeyValue>)
  {
    forall i :: 0 <= i < |kvps| ==> IsKey(kvps[i].key)
  }

  /** A sanitised key contains no character outside `[A-Za-z0-9_]`. */
  lemma KeyLacks(key: string, c: char)
    requires IsKey(key) && !IsKeyChar(c)
    ensures c !in key
  {
    forall j | 0 <= j < |key| ensures key[j] != c {
      assert IsKeyChar(key[j]);
    }
  }

  lemma LineFields(kvps: seq<KeyValue>)
    requires kvps != []
    ensures Split(CsvLine(kvps), ',') == Fields(kvps)
    ensures |Split(CsvLine(kvps), ',')| == |kvps|
  {
    SplitJoin(Fields(kvps), ',');
  }

  /** The header splits the same way, into the keys, because a sanitised key has no comma. */
  lemma HeaderFields(kvps: seq<KeyValue>)
    requires kvps != [] && KeysAreKeys(kvps)
    ensures Split(CsvHeader(kvps), ',') == Keys(kvps)
    ensures |Split(CsvHeader(kvps), ',')| == |Split(CsvLine(kvps), ',')|
  {
    forall i | 0 <= i < |kvps| ensures ',' !in kvps[i].key {
      KeyLacks(kvps[i].key, ',');
    }
    SplitJoin(Keys(kvps), ',');
    LineFields(kvps);
  }

  /** For a flattened result the header and the line line up, field for field. */
  lemma FlattenedColumns(obj: seq<Member>)
    requires Flatten(obj, NumbersStrings) != []
    ensures var kvps := Flatten(obj, NumbersStrings);
      Split(CsvHeader(kvps), ',') == Keys(kvps) && Split(CsvLine(kvps), ',') == Fields(kvps)
      && '\n' !in CsvHeader(kvps)
  {
    var kvps := Flatten(obj, NumbersStrings);
    FlattenedKeys(obj);
    HeaderFields(kvps);
    LineFields(kvps);
  }

  lemma FlattenedKeys(obj: seq<Member>)
    ensures KeysAreKeys(Flatten(obj, NumbersStrings))
  {
    var kvps := Flatten(obj, NumbersStrings);
    FlattenSpec(obj, NumbersStrings);
    forall i | 0 <= i < |kvps| ensures IsKey(kvps[i].key) {
      assert kvps[i] in kvps;
    }
  }

  // ---------------------------------------------------------------------------
  // The ledger
  // ---------------------------------------------------------------------------

  /** The text of `results.csv` after one record is appended to the file as it was. */
  function LedgerAfter(csv: Option<string>, kvps: seq<KeyValue>): (r: string)
    ensures |r| > 0 && r[|r| - 1] == '\n'
    ensures csv.Some? ==> |csv.value| < |r| && r[..|csv.value|] == csv.value
    ensures csv.None? ==> |CsvHeader(kvps)| < |r| && r[..|CsvHeader(kvps)|] == CsvHeader(kvps)
  {
    var line := CsvLine(kvps);
    if csv.None? then
      var h := CsvHeader(kvps);
      Assoc(h + "\n", line, "\n");
      Assoc(h, "\n", line + "\n");
      PrefixOf(h, "\n" + (line + "\n"));
      h + "\n" + line + "\n"
    else
      Assoc(csv.value, line, "\n");
      PrefixOf(csv.value, line + "\n");
      csv.value + line + "\n"
  }

  lemma PrefixOf(a: string, b: string)
    ensures (a + b)[..|a|] == a
  {
  }

  /** The ledger after appending each record of `records` in turn. */
  function LedgerFrom(csv: Option<string>, records: seq<seq<KeyValue>>): (r: Option<string>)
    ensures records == [] ==> r == csv
    ensures records != [] ==> r.Some?
    ensures csv.Some? ==> r.Some? && |csv.value| <= |r.value| && r.value[..|csv.value|] == csv.value
    decreases |records|
  {
    if records == [] then csv
    else
      var next := LedgerAfter(csv, records[0]);
      var r := LedgerFrom(Some(next), records[1..]);
      assert csv.Some? ==> r.value[..|csv.value|] == r.value[..|next|][..|csv.value|];
      r
  }

  function Lines(records: seq<seq<KeyValue>>): (r: seq<string>)
    ensures |r| == |records| && forall i :: 0 <= i < |records| ==> r[i] == CsvLine(records[i])
  {
    seq(|records|, i requires 0 <= i < |records| => CsvLine(records[i]))
  }

  /** Each line followed by a newline. */
  function LinesText(lines: seq<string>): string
  {
    if lines == [] then "" else lines[0] + "\n" + LinesText(lines[1..])
  }

  lemma {:induction false} LedgerFromSome(c: string, records: seq<seq<KeyValue>>)
    ensures LedgerFrom(Some(c), records) == Some(c + LinesText(Lines(records)))
    decreases |records|
  {
    if records == [] {
      assert c + "" == c;
    } else {
      var line, rest := CsvLine(records[0]), records[1..];
      var next := c + line + "\n";
      assert LedgerAfter(Some(c), records[0]) == next;
      assert LedgerFrom(Some(c), records) == LedgerFrom(Some(next), rest);
      LedgerFromSome(next, rest);
      var tailText := LinesText(Lines(rest));
      assert Lines(records)[1..] == Lines(rest);
      assert LinesText(Lines(records)) == line + "\n" + tailText;
      Assoc(c + line, "\n", tailText);
      Assoc(c, line, "\n" + tailText);
      Assoc(line, "\n", tailText);
    }
  }

  lemma Assoc(a: string, b: string, c: string)
    ensures a + b + c == a + (b + c)
  {
  }

  lemma {:induction false} SplitLinesText(lines: seq<string>)
    requires forall i :: 0 <= i < |lines| ==> '\n' !in lines[i]
    ensures Split(LinesText(lines), '\n') == lines + [""]
  {
    if lines != [] {
      SplitLinesText(lines[1..]);
      SplitAtSep(lines[0], LinesText(lines[1..]), '\n');
      assert lines[0] + "\n" + LinesText(lines[1..]) == lines[0] + ['\n'] + LinesText(lines[1..]);
      assert lines == [lines[0]] + lines[1..];
    }
  }

  /**
    Starting from no `results.csv`, k appended records leave the header of the
    first record and then one line per record: splitting the text on newlines
    gives 1 + k lines and the empty string after the final newline. Later
    records are never checked against the header.
   */
  lemma LedgerReplay(records: seq<seq<KeyValue>>)
    requires records != [] && KeysAreKeys(records[0])
    ensures LedgerFrom(None, records).Some?
    ensures Split(LedgerFrom(None, records).value, '\n') == [CsvHeader(records[0])] + Lines(records) + [""]
    ensures |Split(LedgerFrom(None, records).value, '\n')| == 1 + |records| + 1
  {
    var h := CsvHeader(records[0]);
    LedgerFromNone(records);
    LinesNoNewline(records);
    HeaderThenLines(h, Lines(records));
  }

  lemma LedgerFromNone(records: seq<seq<KeyValue>>)
    requires records != []
    ensures LedgerFrom(None, records) == Some(CsvHeader(records[0]) + "\n" + LinesText(Lines(records)))
  {
    var h := CsvHeader(records[0]);
    assert LedgerFrom(None, records) == LedgerFrom(Some(h + "\n"), records);
    LedgerFromSome(h + "\n", records);
  }

  lemma LinesNoNewline(records: seq<seq<KeyValue>>)
    ensures forall i :: 0 <= i < |Lines(records)| ==> '\n' !in Lines(records)[i]
  {
  }

  lemma HeaderThenLines(h: string, lines: seq<string>)
    requires '\n' !in h
    requires forall i :: 0 <= i < |lines| ==> '\n' !in lines[i]
    ensures Split(h + "\n" + LinesText(lines), '\n') == [h] + lines + [""]
  {
    SplitAtSep(h, LinesText(lines), '\n');
    SplitLinesText(lines);
    assert [h] + (lines + [""]) == [h] + lines + [""];
  }

  // ---------------------------------------------------------------------------
  // Enriching the result object: Python dict assignment
  // ---------------------------------------------------------------------------

  /** `d[key]` on an object: the value of its first member with that key. */
  function Get(fields: seq<Member>, key: string): (r: Option<Json>)
    ensures r.Some? <==> key in MemberKeys(fields)
    ensures r.Some? ==> Member(key, r.value) in fields
  {
    if fields == [] then None
    else if fields[0].key == key then Some(fields[0].value)
    else Get(fields[1..], key)
  }

  /**
    The keys of an object's members, in order: the keys of a JSON object, where
    `Keys` above takes those of the flattened pairs (a different element type).
   */
  function MemberKeys(fields: seq<Member>): (r: seq<string>)
    ensures |r| == |fields| && forall i :: 0 <= i < |fields| ==> r[i] == fields[i].key
  {
    seq(|fields|, i requires 0 <= i < |fields| => fields[i].key)
  }

  /** `d[key] = value`: an existing key keeps its place and takes the new value, a new key goes last. */
  function SetKey(fields: seq<Member>, key: string, value: Json): (r: seq<Member>)
    ensures Member(key, value) in r
    ensures |fields| <= |r| <= |fields| + 1
  {
    if fields == [] then [Member(key, value)]
    else if fields[0].key == key then [Member(key, value)] + fields[1..]
    else [fields[0]] + SetKey(fields[1..], key, value)
  }

  /** After `d[key] = value`, `d[key]` is `value`. */
  lemma {:induction false} SetKeyGet(fields: seq<Member>, key: string, value: Json)
    ensures Get(SetKey(fields, key, value), key) == Some(value)
  {
    if fields != [] && fields[0].key != key {
      SetKeyGet(fields[1..], key, value);
    }
  }

  /** ... and every other key keeps its value. */
  lemma {:induction false} SetKeyOther(fields: seq<Member>, key: string, value: Json, k: string)
    requires k != key
    ensures Get(SetKey(fields, key, value), k) == Get(fields, k)
  {
    if fields != [] && fields[0].key != key {
      SetKeyOther(fields[1..], key, value, k);
    }
  }

  /** The keys keep their order; a new key is added at the end. */
  lemma {:induction false} SetKeyKeys(fields: seq<Member>, key: string, value: Json)
    ensures MemberKeys(SetKey(fields, key, value))
         == if key in MemberKeys(fields) then MemberKeys(fields) else MemberKeys(fields) + [key]
  {
    if fields == [] {
      assert MemberKeys([Member(key, value)]) == [key];
    } else if fields[0].key == key {
      SetKeyFirst(fields, key, value);
    } else {
      SetKeyKeys(fields[1..], key, value);
      SetKeyPast(fields, key, value);
    }
  }

  lemma SetKeyFirst(fields: seq<Member>, key: string, value: Json)
    requires fields != [] && fields[0].key == key
    ensures key in MemberKeys(fields) && MemberKeys(SetKey(fields, key, value)) == MemberKeys(fields)
  {
    assert MemberKeys(fields)[0] == key;
  }

  /** The step of `SetKeyKeys` past a first member with another key. */
  lemma SetKeyPast(fields: seq<Member>, key: string, value: Json)
    requires fields != [] && fields[0].key != key
    requires MemberKeys(SetKey(fields[1..], key, value))
          == if key in MemberKeys(fields[1..]) then MemberKeys(fields[1..]) else MemberKeys(fields[1..]) + [key]
    ensures MemberKeys(SetKey(fields, key, value))
         == if key in MemberKeys(fields) then MemberKeys(fields) else MemberKeys(fields) + [key]
  {
    var rest := SetKey(fields[1..], key, value);
    SetKeyUnfold(fields, key, value);
    MemberKeysCons(fields[0], fields[1..]);
    MemberKeysCons(fields[0], rest);
    assert [fields[0]] + fields[1..] == fields;
    ConsKeys(fields[0].key, MemberKeys(fields[1..]), MemberKeys(rest), key);
  }

  lemma SetKeyUnfold(fields: seq<Member>, key: string, value: Json)
    requires fields != [] && fields[0].key != key
    ensures SetKey(fields, key, value) == [fields[0]] + SetKey(fields[1..], key, value)
  {
  }

  lemma MemberKeysCons(m: Member, rest: seq<Member>)
    ensures MemberKeys([m] + rest) == [m.key] + MemberKeys(rest)
  {
  }

  lemma ConsKeys(k0: string, tail: seq<string>, restKeys: seq<string>, key: string)
    requires k0 != key
    requires restKeys == if key in tail then tail else tail + [key]
    ensures [k0] + restKeys == if key in [k0] + tail then [k0] + tail else [k0] + tail + [key]
  {
    assert key in [k0] + tail <==> key in tail;
    assert [k0] + (tail + [key]) == [k0] + tail + [key];
  }

  /** What `save_result_as_json` could not find. */
  datatype FolderError = KeyError(key: string) | ResultJsonMissing | NotAnObject

  const PerformedBy: string := "Performed By"
  const PerformedDate: string := "Performed Date"

  /** The five assignments, in the order the source makes them. */
  function Enrich(result: seq<Member>, deviceId: Json, notes: Json, config: Json, performedBy: Json, performedOn: Json): (r: seq<Member>)
    ensures |result| <= |r| <= |result| + 5
    ensures Member("config", config) in r
  {
    SetKey(SetKey(SetKey(SetKey(SetKey(result, "device_id", deviceId), "performed_by", performedBy), "performed_on", performedOn), "notes", notes), "config", config)
  }

  /**
    The enriched object has the five keys with the given values, every other key
    as it was, and the original keys still first and in their order.
   */
  lemma EnrichSpec(result: seq<Member>, deviceId: Json, notes: Json, config: Json, performedBy: Json, performedOn: Json)
    ensures var d := Enrich(result, deviceId, notes, config, performedBy, performedOn);
      Get(d, "device_id") == Some(deviceId) && Get(d, "performed_by") == Some(performedBy)
      && Get(d, "performed_on") == Some(performedOn) && Get(d, "notes") == Some(notes) && Get(d, "config") == Some(config)
    ensures var d := Enrich(result, deviceId, notes, config, performedBy, performedOn);
      forall k :: k !in EnrichedKeys ==> Get(d, k) == Get(result, k)
    ensures var d := Enrich(result, deviceId, notes, config, performedBy, performedOn);
      |MemberKeys(result)| <= |MemberKeys(d)| <= |MemberKeys(result)| + 5
      && MemberKeys(d)[..|MemberKeys(result)|] == MemberKeys(result)
  {
    EnrichValues(result, deviceId, notes, config, performedBy, performedOn);
    EnrichOthers(result, deviceId, notes, config, performedBy, performedOn);
    EnrichKeyOrder(result, deviceId, notes, config, performedBy, performedOn);
  }

  const EnrichedKeys: seq<string> := ["device_id", "performed_by", "performed_on", "notes", "config"]

  lemma EnrichValues(result: seq<Member>, deviceId: Json, notes: Json, config: Json, performedBy: Json, performedOn: Json)
    ensures var d := Enrich(result, deviceId, notes, config, performedBy, performedOn);
      Get(d, "device_id") == Some(deviceId) && Get(d, "performed_by") == Some(performedBy)
      && Get(d, "performed_on") == Some(performedOn) && Get(d, "notes") == Some(notes) && Get(d, "config") == Some(config)
  {
    var d1 := SetKey(result, "device_id", deviceId);
    var d2 := SetKey(d1, "performed_by", performedBy);
    var d3 := SetKey(d2, "performed_on", performedOn);
    var d4 := SetKey(d3, "notes", notes);
    SetKeyGet(result, "device_id", deviceId);
    SetKeyGet(d1, "performed_by", performedBy);
    SetKeyGet(d2, "performed_on", performedOn);
    SetKeyGet(d3, "notes", notes);
    SetKeyGet(d4, "config", config);
    SetKeyOther(d1, "performed_by", performedBy, "device_id");
    SetKeyOther(d2, "performed_on", performedOn, "device_id");
    SetKeyOther(d2, "performed_on", performedOn, "performed_by");
    SetKeyOther(d3, "notes", notes, "device_id");
    SetKeyOther(d3, "notes", notes, "performed_by");
    SetKeyOther(d3, "notes", notes, "performed_on");
    SetKeyOther(d4, "config", config, "device_id");
    SetKeyOther(d4, "config", config, "performed_by");
    SetKeyOther(d4, "config", config, "performed_on");
    SetKeyOther(d4, "config", config, "notes");
  }

  lemma EnrichOthers(result: seq<Member>, deviceId: Json, notes: Json, config: Json, performedBy: Json, performedOn: Json)
    ensures var d := Enrich(result, deviceId, notes, config, performedBy, performedOn);
      forall k :: k !in EnrichedKeys ==> Get(d, k) == Get(result, k)
  {
    var d1 := SetKey(result, "device_id", deviceId);
    var d2 := SetKey(d1, "performed_by", performedBy);
    var d3 := SetKey(d2, "performed_on", performedOn);
    var d4 := SetKey(d3, "notes", notes);
    forall k | k !in EnrichedKeys
      ensures Get(SetKey(d4, "config", config), k) == Get(result, k)
    {
      assert k != "device_id" && k != "performed_by" && k != "performed_on" && k != "notes" && k != "config";
      SetKeyOther(result, "device_id", deviceId, k);
      SetKeyOther(d1, "performed_by", performedBy, k);
      SetKeyOther(d2, "performed_on", performedOn, k);
      SetKeyOther(d3, "notes", notes, k);
      SetKeyOther(d4, "config", config, k);
    }
  }

  lemma EnrichKeyOrder(result: seq<Member>, deviceId: Json, notes: Json, config: Json, performedBy: Json, performedOn: Json)
    ensures var d := Enrich(result, deviceId, notes, config, performedBy, performedOn);
      |MemberKeys(result)| <= |MemberKeys(d)| <= |MemberKeys(result)| + 5
      && MemberKeys(d)[..|MemberKeys(result)|] == MemberKeys(result)
  {
    var d1 := SetKey(result, "device_id", deviceId);
    var d2 := SetKey(d1, "performed_by", performedBy);
    var d3 := SetKey(d2, "performed_on", performedOn);
    var d4 := SetKey(d3, "notes", notes);
    var d5 := SetKey(d4, "config", config);
    SetKeyPrefix(result, "device_id", deviceId);
    SetKeyPrefix(d1, "performed_by", performedBy);
    SetKeyPrefix(d2, "performed_on", performedOn);
    SetKeyPrefix(d3, "notes", notes);
    SetKeyPrefix(d4, "config", config);
    PrefixTrans(MemberKeys(result), MemberKeys(d1), MemberKeys(d2));
    PrefixTrans(MemberKeys(result), MemberKeys(d2), MemberKeys(d3));
    PrefixTrans(MemberKeys(result), MemberKeys(d3), MemberKeys(d4));
    PrefixTrans(MemberKeys(result), MemberKeys(d4), MemberKeys(d5));
  }

  lemma SetKeyPrefix(fields: seq<Member>, key: string, value: Json)
    ensures var a, b := MemberKeys(fields), MemberKeys(SetKey(fields, key, value));
      |a| <= |b| <= |a| + 1 && b[..|a|] == a
  {
    var a := MemberKeys(fields);
    SetKeyKeys(fields, key, value);
    if key !in a {
      assert (a + [key])[..|a|] == a;
    }
  }

  lemma PrefixTrans(a: seq<string>, b: seq<string>, c: seq<string>)
    requires |a| <= |b| <= |c| && b[..|a|] == a && c[..|b|] == b
    ensures c[..|a|] == a
  {
    assert c[..|a|] == c[..|b|][..|a|];
  }

  // ---------------------------------------------------------------------------
  // The folder
  // ---------------------------------------------------------------------------

  class ResultFolder {
    var resultJson: Option<Json>   // `output_dir/result.json`
    var resultsCsv: Option<string> // `parent of output_dir/results.csv`

    constructor (resultJson: Option<Json>, resultsCsv: Option<string>)
      ensures this.resultJson == resultJson && this.resultsCsv == resultsCsv
    {
      this.resultJson := resultJson;
      this.resultsCsv := resultsCsv;
    }

    /** `write_line`: open with `'w'`, which truncates. */
    method WriteLine(line: string)
      modifies this`resultsCsv
      ensures resultsCsv == Some(line + "\n")
    {
      resultsCsv := Some(line + "\n");
    }

    /** `append_line`: open with `'a'`, which creates a missing file. */
    method AppendLine(line: string)
      modifies this`resultsCsv
      ensures resultsCsv == Some(old(resultsCsv).GetOr("") + line + "\n")
    {
      resultsCsv := Some(resultsCsv.GetOr("") + line + "\n");
    }

    /**
      `save_result_as_json` for a result whose attributes are `result`: the two
      metadata lookups fail with a KeyError before anything is written.
     */
    method SaveResultAsJson(result: seq<Member>, deviceId: Json, notes: Json, config: Json, metadata: seq<Member>)
      returns (r: Result<Json, FolderError>)
      modifies this`resultJson
      ensures Get(metadata, PerformedBy).None? ==> r == Failure(KeyError(PerformedBy))
      ensures Get(metadata, PerformedBy).Some? && Get(metadata, PerformedDate).None? ==> r == Failure(KeyError(PerformedDate))
      ensures r.Failure? ==> resultJson == old(resultJson)
      ensures r.Success? <==> Get(metadata, PerformedBy).Some? && Get(metadata, PerformedDate).Some?
      ensures r.Success? ==>
        r.value == Obj(Enrich(result, deviceId, notes, config, Get(metadata, PerformedBy).value, Get(metadata, PerformedDate).value))
        && resultJson == Some(r.value)
    {
      var resultDict := result;
      resultDict := SetKey(resultDict, "device_id", deviceId);
      var performedBy := Get(metadata, PerformedBy);
      if performedBy.None? {
        return Failure(KeyError(PerformedBy));
      }
      resultDict := SetKey(resultDict, "performed_by", performedBy.value);
      var performedOn := Get(metadata, PerformedDate);
      if performedOn.None? {
        return Failure(KeyError(PerformedDate));
      }
      resultDict := SetKey(resultDict, "performed_on", performedOn.value);
      resultDict := SetKey(resultDict, "notes", notes);
      resultDict := SetKey(resultDict, "config", config);
      resultJson := Some(Obj(resultDict));
      r := Success(Obj(resultDict));
    }

    /**
      `append_result_to_phantom_csv`: read `result.json`, flatten it, write the
      header if `results.csv` is absent, then append the data line.
     */
    method AppendResultToPhantomCsv() returns (r: Result<seq<KeyValue>, FolderError>)
      modifies this`resultsCsv
      ensures resultJson.None? ==> r == Failure(ResultJsonMissing)
      ensures resultJson.Some? && !resultJson.value.Obj? ==> r == Failure(NotAnObject)
      ensures r.Failure? ==> resultsCsv == old(resultsCsv)
      ensures r.Success? <==> resultJson.Some? && resultJson.value.Obj?
      ensures r.Success? ==>
        r.value == Flatten(resultJson.value.fields, NumbersStrings)
        && resultsCsv == Some(LedgerAfter(old(resultsCsv), r.value))
    {
      if resultJson.None? {
        return Failure(ResultJsonMissing);
      }
      var resultData := resultJson.value;
      if !resultData.Obj? {
        return Failure(NotAnObject);
      }
      var kvps := TraverseAndCollectNumbersStrings(resultData.fields);
      var header := CsvHeader(kvps);
      var line := CsvLine(kvps);
      if resultsCsv.None? {
        WriteLine(header);
      }
      AppendLine(line);
      r := Success(kvps);
    }
  }
}
