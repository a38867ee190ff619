/**
  The few Python string built-ins the core relies on, on `seq<char>`:
  `sep.join(parts)`, `s.split(sep)`, `s.replace(c, r)` for a one-character
  pattern, `str(n)` for an integer and `os.path.basename` on a Windows path.
 */
module PyStr {

  /** `sep.join(parts)`. */
  function Join(parts: seq<string>, sep: char): string
  {
    if parts == [] then ""
    else if |parts| == 1 then parts[0]
    else parts[0] + [sep] + Join(parts[1..], sep)
  }

  /** The joined string starts with the first part and ends with the last. */
  lemma {:induction false} JoinEnds(parts: seq<string>, sep: char)
    requires parts != []
    ensures |parts[0]| <= |Join(parts, sep)| && Join(parts, sep)[..|parts[0]|] == parts[0]
    ensures |parts[|parts| - 1]| <= |Join(parts, sep)|
    ensures Join(parts, sep)[|Join(parts, sep)| - |parts[|parts| - 1]|..] == parts[|parts| - 1]
  {
    if |parts| > 1 {
      var first, last := parts[0] + [sep], parts[|parts| - 1];
      var rest := Join(parts[1..], sep);
      JoinEnds(parts[1..], sep);
      assert parts[1..][|parts[1..]| - 1] == last;
      assert Join(parts, sep) == first + rest;
      EndsOfConcat(first, rest, |parts[0]|, |last|);
    }
  }

  lemma EndsOfConcat(a: string, b: string, m: nat, n: nat)
    requires m <= |a| && n <= |b|
    ensures (a + b)[..m] == a[..m]
    ensures (a + b)[|a + b| - n..] == b[|b| - n..]
  {
  }

  /** `s.split(sep)`: the fields between separators; the empty string gives one empty field. */
  function Split(s: string, sep: char): (r: seq<string>)
    ensures |r| >= 1
    ensures forall i :: 0 <= i < |r| ==> sep !in r[i]
    ensures Join(r, sep) == s
  {
    if s == [] then [""]
    else
      var rest := Split(s[1..], sep);
      if s[0] == sep then [""] + rest
      else [[s[0]] + rest[0]] + rest[1..]
  }

  /** Joining one more part extends the joined string by a separator and that part. */
  lemma {:induction false} JoinAppend(parts: seq<string>, p: string, sep: char)
    requires parts != []
    ensures Join(parts + [p], sep) == Join(parts, sep) + [sep] + p
  {
    if |parts| == 1 {
      assert parts + [p] == [parts[0], p];
    } else {
      assert (parts + [p])[1..] == parts[1..] + [p];
      JoinAppend(parts[1..], p, sep);
    }
  }

  /** A string without the separator is one field. */
  lemma {:induction false} SplitNoSep(a: string, sep: char)
    requires sep !in a
    ensures Split(a, sep) == [a]
  {
    if a != [] {
      SplitNoSep(a[1..], sep);
    }
  }

  /** Splitting stops at the first separator. */
  lemma {:induction false} SplitAtSep(a: string, b: string, sep: char)
    requires sep !in a
    ensures Split(a + [sep] + b, sep) == [a] + Split(b, sep)
  {
    if a == [] {
      assert a + [sep] + b == [sep] + b;
      assert ([sep] + b)[1..] == b;
    } else {
      assert (a + [sep] + b)[1..] == a[1..] + [sep] + b;
      SplitAtSep(a[1..], b, sep);
      assert [a[0]] + a[1..] == a;
    }
  }

  /** `split` inverts `join` when no part contains the separator. */
  lemma {:induction false} SplitJoin(parts: seq<string>, sep: char)
    requires |parts| >= 1
    requires forall i :: 0 <= i < |parts| ==> sep !in parts[i]
    ensures Split(Join(parts, sep), sep) == parts
  {
    if |parts| == 1 {
      SplitNoSep(parts[0], sep);
    } else {
      var rest := Join(parts[1..], sep);
      SplitJoin(parts[1..], sep);
      SplitAtSep(parts[0], rest, sep);
      assert [parts[0]] + parts[1..] == parts;
    }
  }

  /** A character that is neither the separator nor in any part is not in the joined string. */
  lemma {:induction false} JoinNoChar(parts: seq<string>, sep: char, c: char)
    requires c != sep
    requires forall i :: 0 <= i < |parts| ==> c !in parts[i]
    ensures c !in Join(parts, sep)
  {
    if |parts| > 1 {
      JoinNoChar(parts[1..], sep, c);
    }
  }

  /** `s.replace(c, r)` for a one-character pattern `c`. */
  function ReplaceAll(s: string, c: char, r: string): (t: string)
    ensures c !in r ==> c !in t
    ensures c !in s ==> t == s
    ensures forall d :: d in t ==> d in s || d in r
  {
    if s == [] then []
    else (if s[0] == c then r else [s[0]]) + ReplaceAll(s[1..], c, r)
  }

  lemma {:induction false} ReplaceAllAppend(a: string, b: string, c: char, r: string)
    ensures ReplaceAll(a + b, c, r) == ReplaceAll(a, c, r) + ReplaceAll(b, c, r)
  {
    if a == [] {
      assert a + b == b;
    } else {
      var x, tail := a[0], a[1..];
      assert a == [x] + tail && a + b == [x] + (tail + b);
      ReplaceAllCons(x, tail + b, c, r);
      ReplaceAllCons(x, tail, c, r);
      ReplaceAllAppend(tail, b, c, r);
      Assoc3(if x == c then r else [x], ReplaceAll(tail, c, r), ReplaceAll(b, c, r));
    }
  }

  lemma ReplaceAllCons(x: char, s: string, c: char, r: string)
    ensures ReplaceAll([x] + s, c, r) == (if x == c then r else [x]) + ReplaceAll(s, c, r)
  {
    assert ([x] + s)[0] == x && ([x] + s)[1..] == s;
  }

  lemma Assoc3(a: string, b: string, c: string)
    ensures a + (b + c) == a + b + c
  {
  }

  function DigitChar(d: nat): (c: char)
    requires d < 10
    ensures '0' <= c <= '9'
  {
    ('0' as int + d) as char
  }

  function DigitValue(c: char): nat
  {
    if '0' <= c <= '9' then (c as int - '0' as int) as nat else 0
  }

  /** The decimal digits of `n`, most significant first, without leading zeros. */
  function NatToStr(n: nat): (r: string)
    ensures |r| >= 1
    ensures forall i :: 0 <= i < |r| ==> '0' <= r[i] <= '9'
    ensures |r| > 1 ==> r[0] != '0'
    decreases n
  {
    if n < 10 then [DigitChar(n)] else NatToStr(n / 10) + [DigitChar(n % 10)]
  }

  /** The value of a string of decimal digits. */
  function ParseNat(s: string): nat
  {
    if s == [] then 0 else 10 * ParseNat(s[..|s| - 1]) + DigitValue(s[|s| - 1])
  }

  /** Reading the digits back gives the number. */
  lemma {:induction false} ParseNatToStr(n: nat)
    ensures ParseNat(NatToStr(n)) == n
    decreases n
  {
    var s := NatToStr(n);
    if n < 10 {
      assert s[..|s| - 1] == [];
    } else {
      var q, d := n / 10, n % 10;
      assert s == NatToStr(q) + [DigitChar(d)];
      assert s[..|s| - 1] == NatToStr(q);
      ParseNatToStr(q);
      assert ParseNat(s) == 10 * q + d;
    }
  }

  /** Python's `str(n)` for an integer `n`. */
  function IntToStr(n: int): (r: string)
    ensures r != []
    ensures forall i :: 0 <= i < |r| ==> r[i] == '-' || '0' <= r[i] <= '9'
    ensures (r[0] == '-') <==> n < 0
    ensures n >= 0 ==> ParseNat(r) == n
    ensures n < 0 ==> ParseNat(r[1..]) == -n
    ensures n >= 0 ==> (forall i :: 0 <= i < |r| ==> '0' <= r[i] <= '9') && (|r| > 1 ==> r[0] != '0')
    ensures n < 0 ==> |r| >= 2 && (forall i :: 1 <= i < |r| ==> '0' <= r[i] <= '9') && (|r| > 2 ==> r[1] != '0')
  {
    ParseNatToStr(if n < 0 then -n else n);
    if n < 0 then "-" + NatToStr(-n) else NatToStr(n)
  }

  /** The two separators of a Windows path. */
  predicate IsPathSep(c: char) {
    c == '/' || c == '\\'
  }

  /** What follows the last separator of `path` (all of it when there is none). */
  function AfterLastSep(path: string): (r: string)
    ensures forall i :: 0 <= i < |r| ==> !IsPathSep(r[i])
    ensures |r| <= |path| && r == path[|path| - |r|..]
    ensures |r| < |path| ==> IsPathSep(path[|path| - |r| - 1])
    ensures (forall i :: 0 <= i < |path| ==> !IsPathSep(path[i])) ==> r == path
  {
    if path == [] then []
    else if IsPathSep(path[|path| - 1]) then []
    else AfterLastSep(path[..|path| - 1]) + [path[|path| - 1]]
  }

  /** A path that starts with a drive, `X:`. */
  predicate HasDrive(path: string) {
    |path| >= 2 && path[1] == ':' && !IsPathSep(path[0])
  }

  /**
    `os.path.basename(path)` on Windows (`ntpath`): a leading drive `X:` is set
    aside, then what follows the last `/` or `\` is the base name.
   */
  function Basename(path: string): (r: string)
    ensures forall i :: 0 <= i < |r| ==> !IsPathSep(r[i])
    ensures |r| <= |path| && r == path[|path| - |r|..]
    ensures |r| < |path| ==> IsPathSep(path[|path| - |r| - 1]) || (HasDrive(path) && |r| == |path| - 2)
    ensures !HasDrive(path) && (forall i :: 0 <= i < |path| ==> !IsPathSep(path[i])) ==> r == path
    ensures HasDrive(path) && (forall i :: 2 <= i < |path| ==> !IsPathSep(path[i])) ==> r == path[2..]
  {
    if HasDrive(path) then AfterLastSep(path[2..]) else AfterLastSep(path)
  }

  /** A separator followed by a separator-free tail: the tail is what is left. */
  lemma {:induction false} AfterSep(front: string, c: char, tail: string)
    requires IsPathSep(c)
    requires forall i :: 0 <= i < |tail| ==> !IsPathSep(tail[i])
    ensures AfterLastSep(front + [c] + tail) == tail
    decreases |tail|
  {
    var p := front + [c] + tail;
    if tail != [] {
      var n := |tail| - 1;
      assert p[..|p| - 1] == front + [c] + tail[..n];
      AfterSep(front, c, tail[..n]);
      assert tail[..n] + [tail[n]] == tail;
    }
  }

  /** A backslash ends the base name, as a slash does. */
  lemma BasenameBackslash()
    ensures Basename("D:/data\\img.dcm") == "img.dcm"
  {
    assert "D:/data\\img.dcm"[2..] == "/data" + ['\\'] + "img.dcm";
    AfterSep("/data", '\\', "img.dcm");
  }
}
