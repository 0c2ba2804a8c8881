// String, path and list helpers with Python's semantics (str.startswith,
// str.endswith, str.replace, str.split, str.upper for ASCII, os.path.join,
// os.path.split, os.path.splitext, os.path.commonprefix, sorted, list(set(...))).

module Strs {
  import opened Wrappers

  predicate StartsWith(s: string, p: string)
  {
    |p| <= |s| && s[..|p|] == p
  }

  predicate EndsWith(s: string, suffix: string)
  {
    |suffix| <= |s| && s[|s| - |suffix|..] == suffix
  }

  /** `sub in s`, i.e. str.count(sub) >= 1. */
  predicate Contains(s: string, sub: string)
    decreases |s|
  {
    StartsWith(s, sub) || (|s| > 0 && Contains(s[1..], sub))
  }

  predicate IsDigit(c: char) { '0' <= c <= '9' }

  predicate AllDigits(s: string)
  {
    forall i :: 0 <= i < |s| ==> IsDigit(s[i])
  }

  /** A capture block id: ^[0-9]{10}$ */
  predicate IsCaptureBlockId(d: string)
  {
    |d| == 10 && AllDigits(d)
  }

  /** The ten-digit capture block id at the head of `s`, as in `^[0-9]{10}`. */
  predicate TenDigitHead(s: string)
  {
    |s| >= 10 && AllDigits(s[..10])
  }

  function UpperChar(c: char): char
  {
    if 'a' <= c <= 'z' then (c as int - 32) as char else c
  }

  /** str.upper() restricted to ASCII letters. */
  function Upper(s: string): (r: string)
    ensures |r| == |s|
    ensures forall i :: 0 <= i < |s| ==> r[i] == UpperChar(s[i])
  {
    if s == [] then [] else [UpperChar(s[0])] + Upper(s[1..])
  }

  /** str.replace(pat, rep): every non-overlapping occurrence, left to right. */
  function Replace(s: string, pat: string, rep: string): string
    requires pat != []
    decreases |s|
  {
    if |s| < |pat| then s
    else if s[..|pat|] == pat then rep + Replace(s[|pat|..], pat, rep)
    else [s[0]] + Replace(s[1..], pat, rep)
  }

  /** Replacing a pattern that does not occur changes nothing. */
  lemma {:induction false} ReplaceAbsent(s: string, pat: string, rep: string)
    requires pat != [] && !Contains(s, pat)
    ensures Replace(s, pat, rep) == s
    decreases |s|
  {
    if |s| >= |pat| {
      ReplaceAbsent(s[1..], pat, rep);
      assert s == [s[0]] + s[1..];
    }
  }

  /** str.replace with a one-character pattern and replacement. */
  function ReplaceChar(s: string, a: char, b: char): (r: string)
    ensures |r| == |s|
    ensures forall i :: 0 <= i < |s| ==> r[i] == (if s[i] == a then b else s[i])
  {
    if s == [] then [] else [if s[0] == a then b else s[0]] + ReplaceChar(s[1..], a, b)
  }

  /** str.split(sep) for a one-character separator. */
  function Split(s: string, sep: char): (r: seq<string>)
    ensures |r| >= 1
    decreases |s|
  {
    if s == [] then [""]
    else if s[0] == sep then [""] + Split(s[1..], sep)
    else
      var rest := Split(s[1..], sep);
      [[s[0]] + rest[0]] + rest[1..]
  }

  /** sep.join(parts). */
  function Join(sep: string, parts: seq<string>): string
  {
    if parts == [] then ""
    else if |parts| == 1 then parts[0]
    else parts[0] + sep + Join(sep, parts[1..])
  }

  /** The index just after the last `c` in `s`, or 0 when there is none. */
  function AfterLast(s: string, c: char): (i: nat)
    ensures i <= |s|
    ensures i > 0 ==> s[i - 1] == c
    ensures forall j :: i <= j < |s| ==> s[j] != c
  {
    if s == [] then 0
    else if s[|s| - 1] == c then |s|
    else AfterLast(s[..|s| - 1], c)
  }

  /** str.rstrip(c). */
  function RStrip(s: string, c: char): (r: string)
    ensures StartsWith(s, r)
    ensures r == [] || r[|r| - 1] != c
    ensures forall j :: |r| <= j < |s| ==> s[j] == c
  {
    if s == [] then []
    else if s[|s| - 1] == c then RStrip(s[..|s| - 1], c)
    else s
  }

  /** The tail of os.path.split: everything after the last '/'. */
  function Basename(p: string): (r: string)
    ensures '/' !in r
  {
    var i := AfterLast(p, '/');
    assert forall j :: 0 <= j < |p[i..]| ==> p[i..][j] == p[i + j];
    p[i..]
  }

  /** os.path.dirname: the head before the last '/', trailing slashes removed
      unless the head is made of slashes only. */
  function Dirname(p: string): string
  {
    var head := p[..AfterLast(p, '/')];
    if forall j :: 0 <= j < |head| ==> head[j] == '/' then head else RStrip(head, '/')
  }

  /** Whether the file name that ends just before j (it starts after the
      last '/') has a character other than '.'. */
  predicate NameHasNonDot(p: string, j: nat)
    requires j <= |p|
  {
    j > 0 && p[j - 1] != '/' && (p[j - 1] != '.' || NameHasNonDot(p, j - 1))
  }

  /** The '.' that starts the extension of p[..i], scanning back from i. */
  function ExtDot(p: string, i: nat): (r: Option<nat>)
    requires i <= |p|
    ensures r.Some? ==> r.value < i && p[r.value] == '.' && NameHasNonDot(p, r.value)
    ensures r.Some? ==> forall j :: r.value < j < i ==> p[j] != '.' && p[j] != '/'
  {
    if i == 0 || p[i - 1] == '/' then None
    else if p[i - 1] == '.' then (if NameHasNonDot(p, i - 1) then Some(i - 1) else None)
    else ExtDot(p, i - 1)
  }

  /** os.path.splitext: the extension starts at the last '.' of the file
      name, unless every character of the name before it is a '.'. */
  function SplitExt(p: string): (r: (string, string))
    ensures r.0 + r.1 == p
    ensures r.1 == "" || (r.1[0] == '.' && forall j :: 1 <= j < |r.1| ==> r.1[j] != '.' && r.1[j] != '/')
  {
    match ExtDot(p, |p|)
    case None => (p, "")
    case Some(d) =>
      assert p[..d] + p[d..] == p;
      assert forall j :: 0 <= j < |p[d..]| ==> p[d..][j] == p[d + j];
      (p[..d], p[d..])
  }

  /** The extension is the final suffix only, and a leading dot does not
      start one. */
  lemma SplitExtFinalSuffix()
    ensures SplitExt("x/a.full.rdb") == ("x/a.full", ".rdb")
    ensures SplitExt("x/.npy") == ("x/.npy", "")
  {
    var p := "x/a.full.rdb";
    assert p[..8] == "x/a.full" && p[8..] == ".rdb";
    assert NameHasNonDot(p, 8) by {
      assert p[7] == 'l';
    }
    assert ExtDot(p, 9) == Some(8);
    assert ExtDot(p, 10) == Some(8);
    assert ExtDot(p, 11) == Some(8);
    assert ExtDot(p, 12) == Some(8);
    var q := "x/.npy";
    assert !NameHasNonDot(q, 2) by {
      assert q[1] == '/';
    }
    assert !NameHasNonDot(q, 3);
    assert ExtDot(q, 3) == None;
    assert ExtDot(q, 4) == None;
    assert ExtDot(q, 5) == None;
    assert ExtDot(q, 6) == None;
  }

  /** os.path.join(a, b) on POSIX. */
  function PathJoin(a: string, b: string): string
  {
    if StartsWith(b, "/") then b
    else if a == [] || EndsWith(a, "/") then a + b
    else a + "/" + b
  }

  /** Sub-directory names never start with '/', so joining them is injective. */
  lemma JoinInjective(t: string, a: string, b: string)
    requires !StartsWith(a, "/") && !StartsWith(b, "/")
    requires PathJoin(t, a) == PathJoin(t, b)
    ensures a == b
  {
    var pre := if t == [] || EndsWith(t, "/") then t else t + "/";
    assert PathJoin(t, a) == pre + a && PathJoin(t, b) == pre + b;
    assert a == (pre + a)[|pre|..];
    assert b == (pre + b)[|pre|..];
  }

  /** os.path.abspath without normalisation: a relative path is taken
      against the working directory `cwd`. */
  function AbsPath(cwd: string, p: string): (r: string)
    ensures StartsWith(p, "/") ==> r == p
    ensures !StartsWith(p, "/") ==> EndsWith(r, p)
  {
    if StartsWith(p, "/") then p
    else
      var r := PathJoin(cwd, p);
      assert r[|r| - |p|..] == p;
      r
  }

  /** os.path.relpath(p, base) for a path p below base; other paths are kept. */
  function RelPath(p: string, base: string): string
  {
    var b := RStrip(base, '/') + "/";
    if StartsWith(p, b) then p[|b|..] else p
  }

  /** os.path.commonprefix: the longest string that prefixes every element. */
  function CommonPrefix(xs: seq<string>): (r: string)
    ensures forall i :: 0 <= i < |xs| ==> StartsWith(xs[i], r)
  {
    if xs == [] then ""
    else if |xs| == 1 then xs[0]
    else CommonPrefix2(xs[0], CommonPrefix(xs[1..]))
  }

  function CommonPrefix2(a: string, b: string): (r: string)
    ensures StartsWith(a, r) && StartsWith(b, r)
    ensures |r| < |a| && |r| < |b| ==> a[|r|] != b[|r|]
  {
    if a == [] || b == [] || a[0] != b[0] then ""
    else [a[0]] + CommonPrefix2(a[1..], b[1..])
  }

  function DigitString(d: nat): string
    requires d < 10
  {
    ["0123456789"[d]]
  }

  /** str(n) for a natural number. */
  function NatToString(n: nat): string
  {
    if n < 10 then DigitString(n) else NatToString(n / 10) + DigitString(n % 10)
  }

  // ---- ordering, sorting and de-duplication of strings ----

  /** Python's ordering of strings by code points. */
  predicate StrLt(a: string, b: string)
    decreases |a|
  {
    if a == [] then b != []
    else if b == [] then false
    else if a[0] != b[0] then a[0] < b[0]
    else StrLt(a[1..], b[1..])
  }

  predicate StrLe(a: string, b: string)
  {
    a == b || StrLt(a, b)
  }

  lemma {:induction false} StrLtTotal(a: string, b: string)
    ensures a == b || StrLt(a, b) || StrLt(b, a)
    decreases |a|
  {
    if a != [] && b != [] && a[0] == b[0] {
      StrLtTotal(a[1..], b[1..]);
      if a[1..] == b[1..] {
        assert a == [a[0]] + a[1..] && b == [b[0]] + b[1..];
      }
    }
  }

  lemma {:induction false} StrLtTrans(a: string, b: string, c: string)
    requires StrLt(a, b) && StrLt(b, c)
    ensures StrLt(a, c)
    decreases |a|
  {
    if a != [] && a[0] == b[0] && b[0] == c[0] {
      StrLtTrans(a[1..], b[1..], c[1..]);
    }
  }

  lemma {:induction false} StrLtIrreflexive(a: string)
    ensures !StrLt(a, a)
    decreases |a|
  {
    if a != [] { StrLtIrreflexive(a[1..]); }
  }

  predicate Sorted(s: seq<string>)
  {
    forall i, j :: 0 <= i < j < |s| ==> StrLe(s[i], s[j])
  }

  function Insert(x: string, s: seq<string>): (r: seq<string>)
    requires Sorted(s)
    ensures Sorted(r)
    ensures multiset(r) == multiset(s) + multiset{x}
    ensures |r| == |s| + 1
  {
    if s == [] then [x]
    else if StrLe(x, s[0]) then
      BelowHead(x, s);
      ConsSorted(x, s);
      [x] + s
    else
      StrLtTotal(x, s[0]);
      var t := Insert(x, s[1..]);
      assert s == [s[0]] + s[1..];
      HeadBelowInsert(s, x, t);
      ConsSorted(s[0], t);
      [s[0]] + t
  }

  /** What is at most the head of a sorted sequence is at most all of it. */
  lemma BelowHead(x: string, s: seq<string>)
    requires Sorted(s) && s != [] && StrLe(x, s[0])
    ensures forall j :: 0 <= j < |s| ==> StrLe(x, s[j])
  {
    forall j | 0 < j < |s| ensures StrLe(x, s[j]) {
      if x != s[0] && s[0] != s[j] { StrLtTrans(x, s[0], s[j]); }
    }
  }

  /** The head of a sorted sequence is at most every element of the tail
      with one more element inserted that it is also at most. */
  lemma HeadBelowInsert(s: seq<string>, x: string, t: seq<string>)
    requires Sorted(s) && s != [] && StrLt(s[0], x)
    requires multiset(t) == multiset(s[1..]) + multiset{x}
    ensures forall j :: 0 <= j < |t| ==> StrLe(s[0], t[j])
  {
    forall j | 0 <= j < |t| ensures StrLe(s[0], t[j]) {
      assert t[j] in multiset(t);
      if t[j] != x {
        assert t[j] in multiset(s[1..]);
        var k :| 0 <= k < |s[1..]| && s[1..][k] == t[j];
        assert s[k + 1] == t[j];
      }
    }
  }

  lemma ConsSorted(h: string, t: seq<string>)
    requires Sorted(t) && forall j :: 0 <= j < |t| ==> StrLe(h, t[j])
    ensures Sorted([h] + t)
  {
    var r := [h] + t;
    forall i, j | 0 <= i < j < |r| ensures StrLe(r[i], r[j]) {
      if i == 0 {
        assert r[j] == t[j - 1];
      } else {
        assert r[i] == t[i - 1] && r[j] == t[j - 1];
      }
    }
  }

  /** sorted(s). */
  function Sort(s: seq<string>): (r: seq<string>)
    ensures Sorted(r)
    ensures multiset(r) == multiset(s)
    ensures |r| == |s|
  {
    if s == [] then []
    else
      assert s == [s[0]] + s[1..];
      Insert(s[0], Sort(s[1..]))
  }

  predicate NoDup<T(==)>(s: seq<T>)
  {
    forall i, j :: 0 <= i < j < |s| ==> s[i] != s[j]
  }

  /** list(set(s)) with the first occurrence of each element kept. */
  function Dedup(s: seq<string>): (r: seq<string>)
    ensures NoDup(r)
    ensures forall x :: x in r <==> x in s
  {
    if s == [] then []
    else
      var t := Dedup(s[..|s| - 1]);
      if s[|s| - 1] in t then t else t + [s[|s| - 1]]
  }

  /** Sorting a list without duplicates keeps it free of duplicates. */
  lemma SortedNoDup(s: seq<string>)
    requires NoDup(s)
    ensures NoDup(Sort(s))
  {
    var r := Sort(s);
    forall i, j | 0 <= i < j < |r| ensures r[i] != r[j] {
      if r[i] == r[j] {
        TwiceCounted(r, i, j);
        CountAtMostOne(s, r[i]);
        assert false;
      }
    }
  }

  lemma AppendAssoc<T>(a: seq<T>, b: seq<T>, c: seq<T>)
    ensures a + (b + c) == (a + b) + c
  {
  }

  /** Sorting neither loses nor adds a string. */
  lemma SortKeeps(s: seq<string>)
    ensures forall x :: x in Sort(s) <==> x in s
  {
    forall x ensures x in Sort(s) <==> x in s {
      assert x in Sort(s) <==> x in multiset(Sort(s));
      assert x in s <==> x in multiset(s);
    }
  }

  lemma TwiceCounted<T>(r: seq<T>, i: nat, j: nat)
    requires i < j < |r| && r[i] == r[j]
    ensures multiset(r)[r[i]] >= 2
  {
    assert r == r[..j] + r[j..];
    assert multiset(r) == multiset(r[..j]) + multiset(r[j..]);
    assert r[..j][i] == r[i];
    assert r[j..][0] == r[i];
  }

  lemma {:induction false} CountAtMostOne<T>(s: seq<T>, x: T)
    requires NoDup(s)
    ensures multiset(s)[x] <= 1
  {
    if s != [] {
      assert s == [s[0]] + s[1..];
      CountAtMostOne(s[1..], x);
      if s[0] == x {
        assert x !in s[1..];
      }
    }
  }
}
