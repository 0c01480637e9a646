/** The Python 2 `str` operations the plugin relies on: `strip`, `upper`,
    `startswith`, `endswith`, `in`, `split`/`join` on a separator,
    `splitlines`, `str(n)` for a natural number, `None` formatted by `%s`,
    and the ordering `<` that `sort` uses. */
module Strings {
  import opened Wrappers

  // ---------------------------------------------------------------------------
  // strip

  /** The characters Python 2's `str.strip()` removes. */
  predicate IsSpace(c: char) {
    c == ' ' || c == '\t' || c == '\n' || c == '\r' || c == '\U{000B}' || c == '\U{000C}'
  }

  /** The first index at or after `i` that does not hold whitespace. */
  function SkipSpaces(s: string, i: nat): (j: nat)
    requires i <= |s|
    ensures i <= j <= |s|
    ensures forall k :: i <= k < j ==> IsSpace(s[k])
    ensures j == |s| || !IsSpace(s[j])
    decreases |s| - i
  {
    if i < |s| && IsSpace(s[i]) then SkipSpaces(s, i + 1) else i
  }

  /** The end of `s[lo..hi]` once its trailing whitespace is dropped. */
  function BackSpaces(s: string, lo: nat, hi: nat): (h: nat)
    requires lo <= hi <= |s|
    ensures lo <= h <= hi
    ensures forall k :: h <= k < hi ==> IsSpace(s[k])
    ensures h == lo || !IsSpace(s[h - 1])
  {
    if lo < hi && IsSpace(s[hi - 1]) then BackSpaces(s, lo, hi - 1) else hi
  }

  /** `s.strip()`: drops the whitespace at the start, then the whitespace at
      the end of what is left. */
  function Strip(s: string): (r: string)
  {
    var i := SkipSpaces(s, 0);
    s[i..BackSpaces(s, i, |s|)]
  }

  /** What `strip` keeps and what it drops: it returns an infix `s[i..j]`,
      everything before `i` and from `j` on is whitespace, and the infix
      neither starts nor ends with whitespace. */
  lemma StripSpec(s: string)
    ensures exists i, j ::
      (&& 0 <= i <= j <= |s| && Strip(s) == s[i..j]
       && (forall k :: 0 <= k < i ==> IsSpace(s[k]))
       && (forall k :: j <= k < |s| ==> IsSpace(s[k])))
    ensures Strip(s) == [] || (!IsSpace(Strip(s)[0]) && !IsSpace(Strip(s)[|Strip(s)| - 1]))
  {
    var i := SkipSpaces(s, 0);
    var j := BackSpaces(s, i, |s|);
    var r := s[i..j];
    if r != [] {
      assert r[0] == s[i];
      assert r[|r| - 1] == s[j - 1];
    }
  }

  /** Stripping a string that already has no whitespace at either end changes nothing. */
  lemma StripUnchanged(s: string)
    requires s == [] || (!IsSpace(s[0]) && !IsSpace(s[|s| - 1]))
    ensures Strip(s) == s
  {
    if s != [] {
      assert SkipSpaces(s, 0) == 0;
      assert BackSpaces(s, 0, |s|) == |s|;
    }
  }

  /** Stripping `s + "\n"`, where `s` has no whitespace at either end, drops
      exactly the newline. */
  lemma StripFinalNewline(s: string)
    requires s != [] && !IsSpace(s[0]) && !IsSpace(s[|s| - 1])
    ensures Strip(s + "\n") == s
  {
    var t := s + "\n";
    assert t[0] == s[0];
    assert SkipSpaces(t, 0) == 0;
    assert t[|t| - 2] == s[|s| - 1];
    assert BackSpaces(t, 0, |t| - 1) == |t| - 1;
    assert BackSpaces(t, 0, |t|) == |t| - 1;
    assert t[..|t| - 1] == s;
  }

  // ---------------------------------------------------------------------------
  // upper

  /** `upper()` on a Python 2 byte string changes the ASCII letters only. */
  function UpperChar(c: char): char {
    if 'a' <= c <= 'z' then (c as int - 32) as char else c
  }

  function Upper(s: string): (r: string)
    ensures |r| == |s|
    ensures forall i :: 0 <= i < |s| ==> r[i] == UpperChar(s[i])
  {
    if s == [] then [] else [UpperChar(s[0])] + Upper(s[1..])
  }

  // ---------------------------------------------------------------------------
  // startswith, endswith, in

  predicate StartsWith(s: string, prefix: string) {
    |prefix| <= |s| && s[..|prefix|] == prefix
  }

  predicate EndsWith(s: string, suffix: string) {
    |suffix| <= |s| && s[|s| - |suffix|..] == suffix
  }

  predicate MatchAt(s: string, sub: string, j: nat) {
    j + |sub| <= |s| && s[j..j + |sub|] == sub
  }

  /** Python's `sub in s` on strings. */
  predicate Contains(s: string, sub: string) {
    exists j: nat | j <= |s| :: MatchAt(s, sub, j)
  }

  // ---------------------------------------------------------------------------
  // split and join

  /** The first position at or after `from` where `sep` occurs. */
  function IndexOf(s: string, sep: string, from: nat): (r: Option<nat>)
    requires |sep| > 0
    ensures r.Some? ==> from <= r.value && MatchAt(s, sep, r.value)
    ensures r.Some? ==> forall j :: from <= j < r.value ==> !MatchAt(s, sep, j)
    ensures r.None? ==> forall j :: from <= j ==> !MatchAt(s, sep, j)
    decreases |s| - from
  {
    if from + |sep| > |s| then None
    else if s[from..from + |sep|] == sep then Some(from)
    else IndexOf(s, sep, from + 1)
  }

  /** `s.split(sep)`: the pieces between non-overlapping occurrences of
      `sep`, scanned from the left. */
  function Split(s: string, sep: string): (parts: seq<string>)
    requires |sep| > 0
    ensures |parts| >= 1
    decreases |s|
  {
    match IndexOf(s, sep, 0)
    case None => [s]
    case Some(i) => [s[..i]] + Split(s[i + |sep|..], sep)
  }

  /** `sep.join(parts)`. */
  function Join(parts: seq<string>, sep: string): string {
    if |parts| == 0 then ""
    else if |parts| == 1 then parts[0]
    else parts[0] + sep + Join(parts[1..], sep)
  }

  /** Splitting and joining again on the same separator gives back the string. */
  lemma {:induction false} JoinSplit(s: string, sep: string)
    requires |sep| > 0
    ensures Join(Split(s, sep), sep) == s
    decreases |s|
  {
    var ps := Split(s, sep);
    match IndexOf(s, sep, 0)
    case None =>
    case Some(i) =>
      var rest := s[i + |sep|..];
      JoinSplit(rest, sep);
      assert ps == [s[..i]] + Split(rest, sep);
      assert ps[0] == s[..i] && ps[1..] == Split(rest, sep) && |ps| >= 2;
      assert Join(ps, sep) == ps[0] + sep + Join(ps[1..], sep);
      assert s == s[..i] + sep + rest;
  }

  /** No piece of a split contains the separator. */
  lemma {:induction false} SplitPartsFree(s: string, sep: string)
    requires |sep| > 0
    ensures forall p :: p in Split(s, sep) ==> !Contains(p, sep)
    decreases |s|
  {
    match IndexOf(s, sep, 0)
    case None =>
      forall j: nat | j <= |s| ensures !MatchAt(s, sep, j) { }
    case Some(i) =>
      var rest := s[i + |sep|..];
      SplitPartsFree(rest, sep);
      forall j: nat | j <= i ensures !MatchAt(s[..i], sep, j) {
        if MatchAt(s[..i], sep, j) {
          assert s[..i][j..j + |sep|] == s[j..j + |sep|];
          assert MatchAt(s, sep, j);
        }
      }
  }

  /** A string splits into one piece exactly when it has no separator in it. */
  lemma SplitSingle(s: string, sep: string)
    requires |sep| > 0
    ensures |Split(s, sep)| == 1 <==> !Contains(s, sep)
  {
    match IndexOf(s, sep, 0)
    case None =>
      forall j: nat | j <= |s| ensures !MatchAt(s, sep, j) { }
    case Some(i) =>
  }

  lemma {:induction false} JoinSnoc(parts: seq<string>, x: string, sep: string)
    requires |parts| >= 1
    ensures Join(parts + [x], sep) == Join(parts, sep) + sep + x
    decreases |parts|
  {
    if |parts| == 1 {
      assert parts + [x] == [parts[0], x];
    } else {
      JoinSnoc(parts[1..], x, sep);
      assert (parts + [x])[1..] == parts[1..] + [x];
    }
  }

  /** The last piece of `s.split(sep)`, as in `s.split(sep)[-1]`. */
  function LastPiece(s: string, sep: string): string
    requires |sep| > 0
  {
    var parts := Split(s, sep);
    parts[|parts| - 1]
  }

  /** `sep.join(s.split(sep)[:-1])`: everything before the last separator. */
  function Qualifier(s: string, sep: string): string
    requires |sep| > 0
  {
    var parts := Split(s, sep);
    Join(parts[..|parts| - 1], sep)
  }

  /** The string is its qualifier, the separator and its last piece when it
      contains the separator, and is its own last piece with an empty
      qualifier otherwise; the last piece never contains the separator. */
  lemma QualifierLastPiece(s: string, sep: string)
    requires |sep| > 0
    ensures Contains(s, sep) ==> Qualifier(s, sep) + sep + LastPiece(s, sep) == s
    ensures !Contains(s, sep) ==> Qualifier(s, sep) == "" && LastPiece(s, sep) == s
    ensures !Contains(LastPiece(s, sep), sep)
  {
    SplitSingle(s, sep);
    if Contains(s, sep) {
      QualifierJoin(s, sep);
    } else {
      var parts := Split(s, sep);
      assert parts == [s];
    }
    LastPieceFree(s, sep);
  }

  lemma QualifierJoin(s: string, sep: string)
    requires |sep| > 0 && |Split(s, sep)| >= 2
    ensures Qualifier(s, sep) + sep + LastPiece(s, sep) == s
  {
    var parts := Split(s, sep);
    var n := |parts|;
    var init := parts[..n - 1];
    var last := parts[n - 1];
    assert init + [last] == parts;
    JoinSnoc(init, last, sep);
    JoinSplit(s, sep);
    assert Join(init, sep) + sep + last == Join(parts, sep);
  }

  lemma LastPieceFree(s: string, sep: string)
    requires |sep| > 0
    ensures !Contains(LastPiece(s, sep), sep)
  {
    var parts := Split(s, sep);
    SplitPartsFree(s, sep);
    assert parts[|parts| - 1] in parts;
  }

  // ---------------------------------------------------------------------------
  // splitlines

  predicate IsLineBreak(c: char) {
    c == '\n' || c == '\r'
  }

  /** `s` holds no line break. */
  predicate OneLine(s: string) {
    forall k :: 0 <= k < |s| ==> !IsLineBreak(s[k])
  }

  lemma OneLineAppend(a: string, b: string)
    requires OneLine(a) && OneLine(b)
    ensures OneLine(a + b)
  {
    forall k | 0 <= k < |a + b| ensures !IsLineBreak((a + b)[k]) {
      if k >= |a| {
        assert (a + b)[k] == b[k - |a|];
      }
    }
  }

  /** The index of the first line break at or after `from`, or |s|. */
  function LineEnd(s: string, from: nat): (r: nat)
    requires from <= |s|
    ensures from <= r <= |s|
    ensures forall k :: from <= k < r ==> !IsLineBreak(s[k])
    ensures r < |s| ==> IsLineBreak(s[r])
    decreases |s| - from
  {
    if from == |s| || IsLineBreak(s[from]) then from else LineEnd(s, from + 1)
  }

  /** Python 2's `str.splitlines()` on a byte string: breaks at "\n", "\r"
      and "\r\n", drops the breaks, and yields no empty last line. */
  function SplitLines(s: string): (lines: seq<string>)
    ensures s == [] <==> lines == []
    ensures forall l :: l in lines ==> forall k :: 0 <= k < |l| ==> !IsLineBreak(l[k])
    decreases |s|
  {
    if s == [] then []
    else
      var e := LineEnd(s, 0);
      var next := if e + 1 < |s| && s[e] == '\r' && s[e + 1] == '\n' then e + 2
                  else if e < |s| then e + 1 else e;
      [s[..e]] + SplitLines(s[next..])
  }

  /** `LineEnd` finds the first break after `from`. */
  lemma {:induction false} LineEndAt(s: string, from: nat, e: nat)
    requires from <= e <= |s|
    requires forall k :: from <= k < e ==> !IsLineBreak(s[k])
    requires e < |s| ==> IsLineBreak(s[e])
    ensures LineEnd(s, from) == e
    decreases e - from
  {
    if from < e {
      LineEndAt(s, from + 1, e);
    }
  }

  /** A non-empty string without a line break is one line. */
  lemma SplitLinesOne(s: string)
    requires s != [] && OneLine(s)
    ensures SplitLines(s) == [s]
  {
    LineEndAt(s, 0, |s|);
    assert s[|s|..] == [];
    assert s[..|s|] == s;
  }

  /** A first line without break characters is followed by the lines of the rest. */
  lemma SplitLinesHead(first: string, rest: string)
    requires OneLine(first)
    requires rest == [] || rest[0] != '\n'
    ensures SplitLines(first + "\n" + rest) == [first] + SplitLines(rest)
  {
    var s := first + "\n" + rest;
    assert s[|first|] == '\n';
    assert forall k :: 0 <= k < |first| ==> s[k] == first[k];
    LineEndAt(s, 0, |first|);
    assert s[..|first|] == first;
    assert s[|first| + 1..] == rest;
  }
  /** Two lines joined by a newline split back into those two lines. */
  lemma TwoLines(first: string, second: string)
    requires OneLine(first) && second != [] && OneLine(second)
    ensures SplitLines(first + "\n" + second) == [first, second]
  {
    SplitLinesHead(first, second);
    SplitLinesOne(second);
  }


  // ---------------------------------------------------------------------------
  // str(n) for a natural number

  predicate IsDigit(c: char) {
    '0' <= c <= '9'
  }

  function DigitChar(d: nat): (c: char)
    requires d < 10
    ensures IsDigit(c) && c as int - '0' as int == d
  {
    ('0' as int + d) as char
  }

  /** `str(n)` for n >= 0: its decimal digits, without leading zeros. */
  function NatToString(n: nat): (r: string)
    ensures |r| >= 1
    ensures forall i :: 0 <= i < |r| ==> IsDigit(r[i])
    ensures n < 10 <==> |r| == 1
  {
    if n < 10 then [DigitChar(n)] else NatToString(n / 10) + [DigitChar(n % 10)]
  }

  /** The number a string of decimal digits denotes. */
  function DigitValue(c: char): (d: nat)
    requires IsDigit(c)
    ensures d < 10
  {
    c as int - '0' as int
  }

  function DigitsValue(s: string): nat
    requires forall i :: 0 <= i < |s| ==> IsDigit(s[i])
  {
    if s == [] then 0 else DigitsValue(s[..|s| - 1]) * 10 + DigitValue(s[|s| - 1])
  }

  /** Reading the digits of `str(n)` back gives `n`. */
  lemma {:induction false} NatToStringRoundTrip(n: nat)
    ensures DigitsValue(NatToString(n)) == n
  {
    if n >= 10 {
      NatToStringRoundTrip(n / 10);
      var r := NatToString(n);
      assert r[..|r| - 1] == NatToString(n / 10);
    }
  }

  /** Distinct numbers have distinct decimal renderings. */
  lemma NatToStringInjective(a: nat, b: nat)
    requires NatToString(a) == NatToString(b)
    ensures a == b
  {
    NatToStringRoundTrip(a);
    NatToStringRoundTrip(b);
  }

  // ---------------------------------------------------------------------------
  // `%s` applied to a value that may be None

  function Show(o: Option<string>): (r: string)
    ensures o.Some? ==> r == o.value
    ensures o.None? ==> r == "None"
  {
    match o
    case Some(s) => s
    case None => "None"
  }

  // ---------------------------------------------------------------------------
  // ordering of strings, as Python compares byte strings

  /** `a < b` on Python strings: character by character, a proper prefix first. */
  predicate Less(a: string, b: string) {
    if |a| == 0 then |b| > 0
    else if |b| == 0 then false
    else if a[0] == b[0] then Less(a[1..], b[1..])
    else a[0] < b[0]
  }

  lemma {:induction false} LessIrreflexive(a: string)
    ensures !Less(a, a)
  {
    if |a| > 0 { LessIrreflexive(a[1..]); }
  }

  lemma {:induction false} LessTransitive(a: string, b: string, c: string)
    requires Less(a, b) && Less(b, c)
    ensures Less(a, c)
  {
    if |a| > 0 && |b| > 0 && |c| > 0 && a[0] == b[0] && b[0] == c[0] {
      LessTransitive(a[1..], b[1..], c[1..]);
    }
  }

  lemma {:induction false} LessTotal(a: string, b: string)
    requires a != b
    ensures Less(a, b) || Less(b, a)
  {
    if |a| > 0 && |b| > 0 && a[0] == b[0] {
      assert a == [a[0]] + a[1..] && b == [b[0]] + b[1..];
      LessTotal(a[1..], b[1..]);
    }
  }

  lemma LessAsymmetric(a: string, b: string)
    requires Less(a, b)
    ensures !Less(b, a)
  {
    if Less(b, a) {
      LessTransitive(a, b, a);
      LessIrreflexive(a);
    }
  }

  predicate StrictlySorted(s: seq<string>) {
    forall i, j :: 0 <= i < j < |s| ==> Less(s[i], s[j])
  }

  /** No element occurs twice. */
  predicate Distinct<T(==)>(s: seq<T>) {
    forall i, j :: 0 <= i < j < |s| ==> s[i] != s[j]
  }

  lemma SortedDistinct(s: seq<string>)
    requires StrictlySorted(s)
    ensures Distinct(s)
  {
    forall i, j | 0 <= i < j < |s| ensures s[i] != s[j] {
      LessIrreflexive(s[i]);
    }
  }

  lemma DistinctAppend<T>(a: seq<T>, b: seq<T>)
    requires Distinct(a) && Distinct(b)
    requires forall x :: x in a ==> x !in b
    ensures Distinct(a + b)
  {
    forall i, j | 0 <= i < j < |a + b| ensures (a + b)[i] != (a + b)[j] {
      if j < |a| {
        assert (a + b)[i] == a[i] && (a + b)[j] == a[j];
      } else if i >= |a| {
        assert (a + b)[i] == b[i - |a|] && (a + b)[j] == b[j - |a|];
      } else {
        assert (a + b)[i] == a[i] && a[i] in a;
        assert (a + b)[j] == b[j - |a|];
      }
    }
  }

  lemma SameElementsNonEmpty(a: seq<string>, b: seq<string>)
    requires forall x :: x in a ==> x in b
    ensures a != [] ==> b != []
  {
    if a != [] { assert a[0] in a; }
  }

  /** Two strictly sorted lists with the same elements are the same list. */
  lemma {:induction false} SortedUnique(a: seq<string>, b: seq<string>)
    requires StrictlySorted(a) && StrictlySorted(b)
    requires forall x :: x in a <==> x in b
    ensures a == b
    decreases |a|
  {
    SameElementsNonEmpty(a, b);
    SameElementsNonEmpty(b, a);
    if a != [] {
      if a[0] != b[0] {
        assert b[0] in a && a[0] in b;
        var i :| 0 <= i < |a| && a[i] == b[0];
        var j :| 0 <= j < |b| && b[j] == a[0];
        assert Less(a[0], b[0]) by { LessIrreflexive(a[0]); }
        assert Less(b[0], a[0]) by { LessIrreflexive(b[0]); }
        LessAsymmetric(a[0], b[0]);
      }
      forall x ensures x in a[1..] <==> x in b[1..] {
        if x in a[1..] {
          var i :| 1 <= i < |a| && a[i] == x;
          assert Less(a[0], x);
          LessIrreflexive(x);
          assert x in b;
        }
        if x in b[1..] {
          var j :| 1 <= j < |b| && b[j] == x;
          assert Less(b[0], x);
          LessIrreflexive(x);
          assert x in a;
        }
      }
      SortedUnique(a[1..], b[1..]);
    }
  }

  predicate IsLeast(m: string, s: set<string>) {
    m in s && forall x :: x in s && x != m ==> Less(m, x)
  }

  lemma {:induction false} LeastExists(s: set<string>)
    requires s != {}
    ensures exists m :: IsLeast(m, s)
    decreases |s|
  {
    var y :| y in s;
    if s == {y} {
      assert IsLeast(y, s);
    } else {
      LeastExists(s - {y});
      var m :| IsLeast(m, s - {y});
      if Less(m, y) {
        assert IsLeast(m, s);
      } else {
        LessTotal(m, y);
        forall x | x in s && x != y ensures Less(y, x) {
          if x != m { LessTransitive(y, m, x); }
        }
        assert IsLeast(y, s);
      }
    }
  }

  lemma LeastUnique(s: set<string>)
    ensures forall m1, m2 :: IsLeast(m1, s) && IsLeast(m2, s) ==> m1 == m2
  {
    forall m1, m2 | IsLeast(m1, s) && IsLeast(m2, s) ensures m1 == m2 {
      if m1 != m2 { LessAsymmetric(m1, m2); }
    }
  }

  /** `order` lists every key of a dictionary exactly once, as iterating
      over the dictionary does. */
  predicate Enumerates(order: seq<string>, keys: set<string>) {
    && |order| == |keys|
    && (forall i, j :: 0 <= i < j < |order| ==> order[i] != order[j])
    && (forall k :: k in order ==> k in keys)
    && (forall k :: k in keys ==> k in order)
  }

  /** The keys of a dictionary in ascending order. */
  function SortedKeys(s: set<string>): (r: seq<string>)
    ensures StrictlySorted(r)
    ensures |r| == |s|
    ensures forall x :: x in r <==> x in s
    decreases |s|
  {
    if s == {} then []
    else
      LeastExists(s);
      LeastUnique(s);
      var m :| IsLeast(m, s);
      var rest := SortedKeys(s - {m});
      assert forall j :: 0 <= j < |rest| ==> Less(m, rest[j]) by {
        forall j | 0 <= j < |rest| ensures Less(m, rest[j]) {
          assert rest[j] in rest;
          assert rest[j] in s && rest[j] != m;
        }
      }
      [m] + rest
  }

  lemma SortedKeysEnumerates(s: set<string>)
    ensures Enumerates(SortedKeys(s), s)
  {
    var r := SortedKeys(s);
    forall i, j | 0 <= i < j < |r| ensures r[i] != r[j] {
      LessIrreflexive(r[i]);
    }
  }
}
