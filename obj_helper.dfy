/**
  The result flattener: a walk over a JSON-like nested record that collects
  its scalar leaves as key/value pairs. A leaf's key is its ancestor path
  joined with `_`, passed through a sanitiser that maps every character
  outside `[A-Za-z0-9_]` to `_`; the pairs come back sorted by key.
 */
module ObjHelper {
  import opened PyStr

  /** A JSON scalar. A float carries the text Python's `str` gives for it. */
  datatype Scalar = Bool(b: bool) | Int(i: int) | Float(repr: string) | Str(s: string)

  /**
    A value as `json.load` returns it; an object keeps its keys in insertion
    order. A sequence of members may repeat a key, which a Python dict cannot:
    the lemmas below hold on this larger domain too.
   */
  datatype Json = Leaf(scalar: Scalar) | Null | List(items: seq<Json>) | Obj(fields: seq<Member>)
  datatype Member = Member(key: string, value: Json)

  /** One `{'key': ..., 'value': ...}` entry of the flattened result. */
  datatype KeyValue = KeyValue(key: string, value: Scalar)

  /** Which of the three traversals: numbers only, strings only, or both. */
  datatype LeafFilter = Numbers | Strings | NumbersStrings

  /** `isinstance(v, (int, float))`; a bool is an int in Python. */
  predicate IsNumber(v: Scalar) {
    v.Bool? || v.Int? || v.Float?
  }

  predicate Keeps(filter: LeafFilter, v: Scalar) {
    match filter
    case Numbers => IsNumber(v)
    case Strings => v.Str?
    case NumbersStrings => true
  }

  /** The alphabet `[A-Za-z0-9_]`. */
  predicate IsKeyChar(c: char) {
    ('a' <= c <= 'z') || ('A' <= c <= 'Z') || ('0' <= c <= '9') || c == '_'
  }

  predicate IsKey(s: string) {
    forall i :: 0 <= i < |s| ==> IsKeyChar(s[i])
  }

  /** `re.sub(r'[^a-zA-Z0-9_]', '_', key)`. */
  function PythonCompatibleKey(key: string): (r: string)
    ensures |r| == |key|
    ensures IsKey(r)
    ensures forall i :: 0 <= i < |key| && IsKeyChar(key[i]) ==> r[i] == key[i]
    ensures forall i :: 0 <= i < |key| && !IsKeyChar(key[i]) ==> r[i] == '_'
  {
    if key == [] then []
    else [if IsKeyChar(key[0]) then key[0] else '_'] + PythonCompatibleKey(key[1..])
  }

  /** Sanitising twice is sanitising once. */
  lemma KeyIdempotent(key: string)
    ensures PythonCompatibleKey(PythonCompatibleKey(key)) == PythonCompatibleKey(key)
  {
  }

  /** A key already in the alphabet is left as it is. */
  lemma KeyOfValidKey(key: string)
    requires IsKey(key)
    ensures PythonCompatibleKey(key) == key
  {
  }

  /** Sanitising works character by character, so it distributes over concatenation. */
  lemma KeyAppend(a: string, b: string)
    ensures PythonCompatibleKey(a + b) == PythonCompatibleKey(a) + PythonCompatibleKey(b)
  {
    var l, r := PythonCompatibleKey(a + b), PythonCompatibleKey(a) + PythonCompatibleKey(b);
    assert |l| == |r|;
    forall i | 0 <= i < |l| ensures l[i] == r[i] {
      if i < |a| {
        assert (a + b)[i] == a[i];
      } else {
        assert (a + b)[i] == b[i - |a|];
      }
    }
  }

  /** The key of a child: the parent's key, `_` and the child's name, sanitised. An empty parent key adds no prefix. */
  function FullKey(parentKey: string, key: string): (r: string)
    ensures IsKey(r)
    ensures parentKey == "" ==> r == PythonCompatibleKey(key)
    ensures parentKey != "" && IsKey(parentKey) ==> r == parentKey + "_" + PythonCompatibleKey(key)
  {
    KeyAppend(parentKey + "_", key);
    KeyAppend(parentKey, "_");
    PythonCompatibleKey(if parentKey != "" then parentKey + "_" + key else key)
  }

  /** The pairs the traversal appends for `fields`, in discovery order. */
  function Collect(fields: seq<Member>, parentKey: string, filter: LeafFilter): (r: seq<KeyValue>)
    ensures forall i :: 0 <= i < |r| ==> IsKey(r[i].key) && Keeps(filter, r[i].value)
    decreases fields
  {
    if fields == [] then []
    else CollectMember(fields[0], parentKey, filter) + Collect(fields[1..], parentKey, filter)
  }

  /** The pairs one member contributes: itself if it is a kept scalar, its leaves if it is an object. */
  function CollectMember(m: Member, parentKey: string, filter: LeafFilter): (r: seq<KeyValue>)
    ensures forall i :: 0 <= i < |r| ==> IsKey(r[i].key) && Keeps(filter, r[i].value)
    decreases m
  {
    var fullKey := FullKey(parentKey, m.key);
    match m.value
    case Leaf(v) => if Keeps(filter, v) then [KeyValue(fullKey, v)] else []
    case Obj(children) => Collect(children, fullKey, filter)
    case Null => []
    case List(_) => []
  }

  /** A non-object value found below a record, with the key the traversal gives it. */
  datatype LeafAt = LeafAt(key: string, value: Json)

  /** Every non-object value below `fields`, in discovery order, whatever its type: the reference walk. */
  function Leaves(fields: seq<Member>, parentKey: string): (r: seq<LeafAt>)
    ensures forall i :: 0 <= i < |r| ==> !r[i].value.Obj? && IsKey(r[i].key)
    decreases fields
  {
    if fields == [] then []
    else MemberLeaves(fields[0], parentKey) + Leaves(fields[1..], parentKey)
  }

  function MemberLeaves(m: Member, parentKey: string): (r: seq<LeafAt>)
    ensures forall i :: 0 <= i < |r| ==> !r[i].value.Obj? && IsKey(r[i].key)
    decreases m
  {
    var fullKey := FullKey(parentKey, m.key);
    match m.value
    case Obj(children) => Leaves(children, fullKey)
    case _ => [LeafAt(fullKey, m.value)]
  }

  /** The leaves a filter keeps, as pairs: scalars of the right type, value unchanged. */
  function Kept(leaves: seq<LeafAt>, filter: LeafFilter): seq<KeyValue>
  {
    if leaves == [] then [] else KeptOne(leaves[0], filter) + Kept(leaves[1..], filter)
  }

  function KeptOne(l: LeafAt, filter: LeafFilter): seq<KeyValue>
  {
    if l.value.Leaf? && Keeps(filter, l.value.scalar) then [KeyValue(l.key, l.value.scalar)] else []
  }

  lemma {:induction false} KeptAppend(a: seq<LeafAt>, b: seq<LeafAt>, filter: LeafFilter)
    ensures Kept(a + b, filter) == Kept(a, filter) + Kept(b, filter)
  {
    if a == [] {
      assert a + b == b;
    } else {
      assert (a + b)[1..] == a[1..] + b;
      KeptAppend(a[1..], b, filter);
    }
  }

  /** Every pair a filter keeps is a leaf of the walk, with its key and its value unchanged. */
  lemma {:induction false} KeptFromLeaves(leaves: seq<LeafAt>, filter: LeafFilter, kv: KeyValue)
    requires kv in Kept(leaves, filter)
    ensures Keeps(filter, kv.value) && LeafAt(kv.key, Leaf(kv.value)) in leaves
  {
    var l := leaves[0];
    if !(l.value.Leaf? && Keeps(filter, l.value.scalar) && kv == KeyValue(l.key, l.value.scalar)) {
      KeptFromLeaves(leaves[1..], filter, kv);
    }
  }

  /** The combined filter keeps exactly what the numbers filter and the strings filter keep between them. */
  lemma {:induction false} KeptBoth(leaves: seq<LeafAt>)
    ensures multiset(Kept(leaves, NumbersStrings)) == multiset(Kept(leaves, Numbers)) + multiset(Kept(leaves, Strings))
  {
    if leaves != [] {
      var l, rest := leaves[0], leaves[1..];
      KeptBoth(rest);
      assert multiset(KeptOne(l, NumbersStrings)) == multiset(KeptOne(l, Numbers)) + multiset(KeptOne(l, Strings));
    }
  }

  /** The traversal is the reference walk followed by the type filter. */
  lemma {:induction false} CollectIsKeptLeaves(fields: seq<Member>, parentKey: string, filter: LeafFilter)
    ensures Collect(fields, parentKey, filter) == Kept(Leaves(fields, parentKey), filter)
    decreases fields
  {
    if fields != [] {
      MemberIsKeptLeaves(fields[0], parentKey, filter);
      CollectIsKeptLeaves(fields[1..], parentKey, filter);
      KeptAppend(MemberLeaves(fields[0], parentKey), Leaves(fields[1..], parentKey), filter);
    }
  }

  lemma {:induction false} MemberIsKeptLeaves(m: Member, parentKey: string, filter: LeafFilter)
    ensures CollectMember(m, parentKey, filter) == Kept(MemberLeaves(m, parentKey), filter)
    decreases m
  {
    match m.value
    case Obj(children) => CollectIsKeptLeaves(children, FullKey(parentKey, m.key), filter);
    case _ =>
  }

  /** The traversal of two runs of members is the traversal of the first, then of the second. */
  lemma {:induction false} CollectAppend(a: seq<Member>, b: seq<Member>, parentKey: string, filter: LeafFilter)
    ensures Collect(a + b, parentKey, filter) == Collect(a, parentKey, filter) + Collect(b, parentKey, filter)
  {
    if a == [] {
      assert a + b == b;
    } else {
      assert (a + b)[1..] == a[1..] + b;
      CollectAppend(a[1..], b, parentKey, filter);
    }
  }

  /**
    Member `i` contributes its pairs between those of the members before and after it:
    a kept scalar under its own key, an object only through its leaves.
   */
  lemma MemberContribution(fields: seq<Member>, i: nat, parentKey: string, filter: LeafFilter)
    requires i < |fields|
    ensures Collect(fields, parentKey, filter)
         == Collect(fields[..i], parentKey, filter) + CollectMember(fields[i], parentKey, filter)
            + Collect(fields[i + 1..], parentKey, filter)
  {
    assert fields == fields[..i] + fields[i..];
    CollectAppend(fields[..i], fields[i..], parentKey, filter);
    CollectUnfold(fields, i, parentKey, filter);
  }

  // ---------------------------------------------------------------------------
  // Python's `sorted(result, key=lambda x: x['key'])`: a stable sort by key,
  // with `<` on strings comparing code points and a proper prefix first.
  // ---------------------------------------------------------------------------

  predicate KeyLe(a: string, b: string)
    decreases |a|
  {
    a == [] || (b != [] && (a[0] < b[0] || (a[0] == b[0] && KeyLe(a[1..], b[1..]))))
  }

  lemma {:induction false} KeyLeRefl(a: string)
    ensures KeyLe(a, a)
    decreases |a|
  {
    if a != [] {
      KeyLeRefl(a[1..]);
    }
  }

  lemma {:induction false} KeyLeTotal(a: string, b: string)
    ensures KeyLe(a, b) || KeyLe(b, a)
    decreases |a|
  {
    if a != [] && b != [] && a[0] == b[0] {
      KeyLeTotal(a[1..], b[1..]);
    }
  }

  lemma {:induction false} KeyLeTrans(a: string, b: string, c: string)
    requires KeyLe(a, b) && KeyLe(b, c)
    ensures KeyLe(a, c)
    decreases |a|
  {
    if a != [] && a[0] == b[0] && b[0] == c[0] {
      KeyLeTrans(a[1..], b[1..], c[1..]);
    }
  }

  lemma {:induction false} KeyLeAntisym(a: string, b: string)
    requires KeyLe(a, b) && KeyLe(b, a)
    ensures a == b
    decreases |a|
  {
    if a != [] {
      KeyLeAntisym(a[1..], b[1..]);
      assert a == [a[0]] + a[1..] && b == [b[0]] + b[1..];
    }
  }

  /** Inserts `x` before the first entry whose key is not below its own. */
  function Insert(x: KeyValue, s: seq<KeyValue>): (r: seq<KeyValue>)
    ensures multiset(r) == multiset(s) + multiset{x}
  {
    if s == [] then [x]
    else if KeyLe(x.key, s[0].key) then [x] + s
    else
      assert s == [s[0]] + s[1..];
      [s[0]] + Insert(x, s[1..])
  }

  /** `sorted(s, key=lambda x: x['key'])`, as a stable insertion sort. */
  function SortByKey(s: seq<KeyValue>): (r: seq<KeyValue>)
    ensures multiset(r) == multiset(s) && |r| == |s|
  {
    if s == [] then []
    else
      var sorted := SortByKey(s[1..]);
      assert s == [s[0]] + s[1..];
      assert multiset(s) == multiset(s[1..]) + multiset{s[0]};
      Insert(s[0], sorted)
  }

  predicate SortedByKey(s: seq<KeyValue>) {
    forall i, j :: 0 <= i < j < |s| ==> KeyLe(s[i].key, s[j].key)
  }

  /** The entries of `s` with key `k`, in their order in `s`. */
  function WithKey(s: seq<KeyValue>, k: string): seq<KeyValue>
  {
    if s == [] then [] else (if s[0].key == k then [s[0]] else []) + WithKey(s[1..], k)
  }

  lemma {:induction false} InsertSorted(x: KeyValue, s: seq<KeyValue>)
    requires SortedByKey(s)
    ensures SortedByKey(Insert(x, s))
  {
    if s != [] && !KeyLe(x.key, s[0].key) {
      InsertSorted(x, s[1..]);
      KeyLeTotal(x.key, s[0].key);
      var r := Insert(x, s);
      forall i, j | 0 <= i < j < |r| ensures KeyLe(r[i].key, r[j].key) {
        if i == 0 {
          assert r[j] in multiset(Insert(x, s[1..]));
          if r[j] != x {
            assert r[j] in s[1..];
          }
        }
      }
    } else if s != [] {
      var r := Insert(x, s);
      forall i, j | 0 <= i < j < |r| ensures KeyLe(r[i].key, r[j].key) {
        if i == 0 && j > 1 {
          KeyLeTrans(x.key, s[0].key, s[j - 1].key);
        }
      }
    }
  }

  lemma {:induction false} InsertWithKey(x: KeyValue, s: seq<KeyValue>, k: string)
    ensures WithKey(Insert(x, s), k) == (if x.key == k then [x] else []) + WithKey(s, k)
  {
    if s != [] && !KeyLe(x.key, s[0].key) {
      // x cannot share s[0]'s key here, so at most one of the two is kept
      KeyLeRefl(x.key);
      assert !(x.key == k && s[0].key == k);
      assert Insert(x, s) == [s[0]] + Insert(x, s[1..]);
      InsertWithKey(x, s[1..], k);
      WithKeyPast(s[0], x, Insert(x, s[1..]), s[1..], k);
      assert [s[0]] + s[1..] == s;
    } else if s != [] {
      WithKeyCons(x, s, k);
    }
  }

  /** Moving `b` past `a` leaves the entries with key `k` in order when `a` and `b` do not both have it. */
  lemma WithKeyPast(a: KeyValue, b: KeyValue, t: seq<KeyValue>, rest: seq<KeyValue>, k: string)
    requires !(a.key == k && b.key == k)
    requires WithKey(t, k) == (if b.key == k then [b] else []) + WithKey(rest, k)
    ensures WithKey([a] + t, k) == (if b.key == k then [b] else []) + WithKey([a] + rest, k)
  {
    WithKeyCons(a, t, k);
    WithKeyCons(a, rest, k);
  }

  lemma WithKeyCons(x: KeyValue, s: seq<KeyValue>, k: string)
    ensures WithKey([x] + s, k) == (if x.key == k then [x] else []) + WithKey(s, k)
  {
    assert ([x] + s)[1..] == s;
  }

  /**
    The sort returns its input sorted and permuted, and stably so: the entries
    that share a key keep the order they had.
   */
  lemma {:induction false} SortByKeySpec(s: seq<KeyValue>)
    ensures SortedByKey(SortByKey(s))
    ensures multiset(SortByKey(s)) == multiset(s)
    ensures forall k :: WithKey(SortByKey(s), k) == WithKey(s, k)
  {
    if s != [] {
      SortByKeySpec(s[1..]);
      InsertSorted(s[0], SortByKey(s[1..]));
      assert s == [s[0]] + s[1..];
      forall k ensures WithKey(SortByKey(s), k) == WithKey(s, k) {
        InsertWithKey(s[0], SortByKey(s[1..]), k);
      }
    }
  }

  /** What the three traversals return for a record `obj`. */
  function Flatten(obj: seq<Member>, filter: LeafFilter): (r: seq<KeyValue>)
    ensures multiset(r) == multiset(Collect(obj, "", filter)) && |r| == |Collect(obj, "", filter)|
  {
    SortByKey(Collect(obj, "", filter))
  }

  /**
    The flattened record is sorted by key, every key is in `[A-Za-z0-9_]`, every
    value is a kept scalar found at that key in the tree, the output is a
    permutation of the kept leaves, entries sharing a key keep their discovery
    order, and there is one entry per kept leaf.
   */
  lemma FlattenSpec(obj: seq<Member>, filter: LeafFilter)
    ensures SortedByKey(Flatten(obj, filter))
    ensures forall kv :: kv in Flatten(obj, filter) ==>
              IsKey(kv.key) && Keeps(filter, kv.value) && LeafAt(kv.key, Leaf(kv.value)) in Leaves(obj, "")
    ensures multiset(Flatten(obj, filter)) == multiset(Kept(Leaves(obj, ""), filter))
    ensures |Flatten(obj, filter)| == |Kept(Leaves(obj, ""), filter)|
    ensures forall k :: WithKey(Flatten(obj, filter), k) == WithKey(Collect(obj, "", filter), k)
  {
    var c := Collect(obj, "", filter);
    SortByKeySpec(c);
    CollectIsKeptLeaves(obj, "", filter);
    assert |multiset(Flatten(obj, filter))| == |multiset(c)|;
    forall kv | kv in Flatten(obj, filter)
      ensures IsKey(kv.key) && Keeps(filter, kv.value) && LeafAt(kv.key, Leaf(kv.value)) in Leaves(obj, "")
    {
      assert kv in multiset(c);
      KeptFromLeaves(Leaves(obj, ""), filter, kv);
    }
  }

  /** The combined traversal returns what the numbers and the strings traversals return between them. */
  lemma FlattenBoth(obj: seq<Member>)
    ensures multiset(Flatten(obj, NumbersStrings)) == multiset(Flatten(obj, Numbers)) + multiset(Flatten(obj, Strings))
    ensures |Flatten(obj, NumbersStrings)| == |Flatten(obj, Numbers)| + |Flatten(obj, Strings)|
  {
    FlattenSpec(obj, NumbersStrings);
    FlattenSpec(obj, Numbers);
    FlattenSpec(obj, Strings);
    KeptBoth(Leaves(obj, ""));
    assert |multiset(Flatten(obj, NumbersStrings))| == |Flatten(obj, NumbersStrings)|;
  }

  /** One step of the traversal loop: the suffix from `i` is item `i` followed by the suffix from `i + 1`. */
  lemma CollectUnfold(obj: seq<Member>, i: nat, parentKey: string, filter: LeafFilter)
    requires i < |obj|
    ensures Collect(obj[i..], parentKey, filter)
         == CollectMember(obj[i], parentKey, filter) + Collect(obj[i + 1..], parentKey, filter)
  {
    assert obj[i..][1..] == obj[i + 1..];
  }

  /**
    The list the traversal functions share down the recursion: Python passes one
    `result` list to every recursive call, which appends to it in place.
   */
  class Collector {
    var result: seq<KeyValue>

    constructor ()
      ensures result == []
    {
      result := [];
    }

    /** The loop of `traverse_and_collect_*` over the items of one record. */
    method Traverse(obj: seq<Member>, parentKey: string, filter: LeafFilter)
      modifies this
      ensures result == old(result) + Collect(obj, parentKey, filter)
      decreases obj, 1
    {
      ghost var total := result + Collect(obj, parentKey, filter);
      var i := 0;
      assert obj[0..] == obj;
      while i < |obj|
        invariant 0 <= i <= |obj|
        invariant result + Collect(obj[i..], parentKey, filter) == total
      {
        CollectUnfold(obj, i, parentKey, filter);
        ghost var before := result;
        ghost var piece := CollectMember(obj[i], parentKey, filter);
        ghost var rest := Collect(obj[i + 1..], parentKey, filter);
        assert before + (piece + rest) == (before + piece) + rest;
        TraverseItem(obj[i], parentKey, filter);
        i := i + 1;
      }
    }

    /** The body of that loop for one item: append a kept scalar, recurse into an object, drop anything else. */
    method TraverseItem(item: Member, parentKey: string, filter: LeafFilter)
      modifies this
      ensures result == old(result) + CollectMember(item, parentKey, filter)
      decreases item, 0
    {
      var key, value := item.key, item.value;
      var fullKey := if parentKey != "" then parentKey + "_" + key else key;
      fullKey := PythonCompatibleKey(fullKey);
      match value {
        case Leaf(v) =>
          if Keeps(filter, v) {
            result := result + [KeyValue(fullKey, v)];
          }
        case Obj(children) =>
          Traverse(children, fullKey, filter);
        case Null =>
        case List(_) =>
      }
    }
  }

  /** The shared body of the three traversals, started at the top of a record with no parent key. */
  method TraverseAndCollect(obj: seq<Member>, filter: LeafFilter) returns (r: seq<KeyValue>)
    ensures r == Flatten(obj, filter)
  {
    var collector := new Collector();
    collector.Traverse(obj, "", filter);
    assert collector.result == Collect(obj, "", filter);
    r := SortByKey(collector.result);
  }

  method TraverseAndCollectNumbers(obj: seq<Member>) returns (r: seq<KeyValue>)
    ensures r == Flatten(obj, Numbers)
  {
    r := TraverseAndCollect(obj, Numbers);
  }

  method TraverseAndCollectStrings(obj: seq<Member>) returns (r: seq<KeyValue>)
    ensures r == Flatten(obj, Strings)
  {
    r := TraverseAndCollect(obj, Strings);
  }

  method TraverseAndCollectNumbersStrings(obj: seq<Member>) returns (r: seq<KeyValue>)
    ensures r == Flatten(obj, NumbersStrings)
  {
    r := TraverseAndCollect(obj, NumbersStrings);
  }
}
