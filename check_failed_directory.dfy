// The check of a directory of failed HDF5 captures: list the capture files,
// drop those that the directory's .htaccess already describes (keeping those
// description lines), optionally drop those older than a cutoff, open each
// with katdal and group the failures by the error raised, and turn the groups
// into AddDescription lines for the web server's directory listing.

module CheckFailedDirectory {
  import opened Wrappers
  import opened Strs

  // ---- names and paths ----

  /** The thirteen characters of `[0-9]{10}.h5`: ten digits, any character
      but a newline, then "h5". */
  predicate H5Name(s: string)
  {
    |s| == 13 && AllDigits(s[..10]) && s[10] != '\n' && s[11..] == "h5"
  }

  /** re.match('[0-9]{10}.h5$', f): the pattern from the start of the name,
      with `$` matching at the end or before a final newline. */
  predicate MatchesH5(f: string)
  {
    |f| >= 13 && H5Name(f[..13]) && (|f| == 13 || f[13..] == "\n")
  }

  /** A matching name starts with a digit, so joining it to a directory
      never discards the directory. */
  lemma MatchesH5Relative(f: string)
    requires MatchesH5(f)
    ensures !StartsWith(f, "/")
  {
    assert f[..13][0] == f[0];
    assert IsDigit(f[..13][..10][0]);
  }

  /** Distinct relative names give distinct joined paths. */
  lemma JoinDistinct(t: string, a: string, b: string)
    requires !StartsWith(a, "/") && !StartsWith(b, "/") && a != b
    ensures PathJoin(t, a) != PathJoin(t, b)
  {
    var pre := if t == [] || EndsWith(t, "/") then t else t + "/";
    assert PathJoin(t, a) == pre + a && PathJoin(t, b) == pre + b;
    assert (pre + a)[|pre|..] == a;
    assert (pre + b)[|pre|..] == b;
  }

  lemma ConsNoDup(h: string, t: seq<string>)
    requires NoDup(t) && h !in t
    ensures NoDup([h] + t)
  {
    var r := [h] + t;
    forall i, j | 0 <= i < j < |r| ensures r[i] != r[j] {
      assert r[j] == t[j - 1];
      if i > 0 { assert r[i] == t[i - 1]; }
    }
  }

  /** get_h5files: the joined paths of the listed names that match the
      pattern and are regular files. `listing` is what os.listdir returns and
      `isFile` the paths for which os.path.isfile holds. */
  function GetH5Files(directory: string, listing: seq<string>, isFile: set<string>): (r: seq<string>)
    ensures |r| <= |listing|
    ensures forall p <- r :: p in isFile && exists f <- listing :: MatchesH5(f) && p == PathJoin(directory, f)
    ensures forall f <- listing :: MatchesH5(f) && PathJoin(directory, f) in isFile ==> PathJoin(directory, f) in r
  {
    if listing == [] then []
    else
      var p := PathJoin(directory, listing[0]);
      var rest := GetH5Files(directory, listing[1..], isFile);
      assert forall f <- listing[1..] :: f in listing;
      (if p in isFile && MatchesH5(listing[0]) then [p] else []) + rest
  }

  /** os.listdir names each entry once, so no path is returned twice. */
  lemma {:induction false} GetH5FilesNoDup(directory: string, listing: seq<string>, isFile: set<string>)
    requires NoDup(listing)
    ensures NoDup(GetH5Files(directory, listing, isFile))
  {
    if listing != [] {
      var tail := listing[1..];
      assert NoDup(tail) by {
        forall i, j | 0 <= i < j < |tail| ensures tail[i] != tail[j] {
          assert tail[i] == listing[i + 1] && tail[j] == listing[j + 1];
        }
      }
      GetH5FilesNoDup(directory, tail, isFile);
      var p := PathJoin(directory, listing[0]);
      var rest := GetH5Files(directory, tail, isFile);
      if p in isFile && MatchesH5(listing[0]) {
        forall q <- rest ensures q != p {
          var f :| f in tail && MatchesH5(f) && q == PathJoin(directory, f);
          var k :| 0 <= k < |tail| && tail[k] == f;
          assert f == listing[k + 1];
          MatchesH5Relative(f);
          MatchesH5Relative(listing[0]);
          JoinDistinct(directory, f, listing[0]);
        }
        ConsNoDup(p, rest);
      }
    }
  }

  // ---- list filtering ----

  /** The elements of `s` outside `d`, in order. */
  function Without(s: seq<string>, d: set<string>): (r: seq<string>)
    ensures forall x :: x in r <==> x in s && x !in d
    ensures |r| <= |s|
  {
    if s == [] then [] else (if s[0] in d then [] else [s[0]]) + Without(s[1..], d)
  }

  /** list.remove(x): the first occurrence of x taken out. */
  function RemoveFirst(s: seq<string>, x: string): (r: seq<string>)
    requires x in s
    ensures |r| == |s| - 1
  {
    if s[0] == x then s[1..] else [s[0]] + RemoveFirst(s[1..], x)
  }

  lemma TailNoDup(s: seq<string>)
    requires NoDup(s) && s != []
    ensures NoDup(s[1..]) && s[0] !in s[1..]
  {
    var t := s[1..];
    forall i, j | 0 <= i < j < |t| ensures t[i] != t[j] {
      assert t[i] == s[i + 1] && t[j] == s[j + 1];
    }
    forall i | 0 <= i < |t| ensures t[i] != s[0] {
      assert t[i] == s[i + 1];
    }
  }

  lemma {:induction false} WithoutAbsent(s: seq<string>, d: set<string>)
    requires forall x <- s :: x !in d
    ensures Without(s, d) == s
  {
    if s != [] {
      assert s[0] in s && s[0] !in d;
      assert forall x <- s[1..] :: x in s;
      WithoutAbsent(s[1..], d);
      assert [s[0]] + s[1..] == s;
    }
  }

  lemma {:induction false} WithoutNoDup(s: seq<string>, d: set<string>)
    requires NoDup(s)
    ensures NoDup(Without(s, d))
  {
    if s != [] {
      TailNoDup(s);
      WithoutNoDup(s[1..], d);
      if s[0] !in d { ConsNoDup(s[0], Without(s[1..], d)); }
    }
  }

  lemma {:induction false} WithoutTwice(s: seq<string>, d: set<string>, e: set<string>)
    ensures Without(Without(s, d), e) == Without(s, d + e)
  {
    if s != [] {
      var rest := s[1..];
      WithoutTwice(rest, d, e);
      var t := Without(rest, d);
      assert Without(s, d + e) == (if s[0] in d + e then [] else [s[0]]) + Without(rest, d + e);
      if s[0] in d {
        assert Without(s, d) == t;
      } else {
        var u := [s[0]] + t;
        assert Without(s, d) == u;
        assert u[0] == s[0] && u[1..] == t;
        assert Without(u, e) == (if s[0] in e then [] else [s[0]]) + Without(t, e);
      }
    }
  }

  /** In a list without duplicates, list.remove(x) removes every x. */
  lemma {:induction false} RemoveFirstIsWithout(s: seq<string>, x: string)
    requires NoDup(s) && x in s
    ensures RemoveFirst(s, x) == Without(s, {x})
  {
    TailNoDup(s);
    if s[0] == x {
      WithoutAbsent(s[1..], {x});
    } else {
      RemoveFirstIsWithout(s[1..], x);
    }
  }

  /** In a list without duplicates, list.remove(s[k]) removes index k. */
  lemma {:induction false} RemoveFirstAt(s: seq<string>, k: nat)
    requires NoDup(s) && k < |s|
    ensures RemoveFirst(s, s[k]) == s[..k] + s[k + 1..]
  {
    TailNoDup(s);
    if k > 0 {
      assert s[1..][k - 1] == s[k];
      RemoveFirstAt(s[1..], k - 1);
      assert s[..k] == [s[0]] + s[1..][..k - 1];
      assert s[k + 1..] == s[1..][k..];
    }
  }

  // ---- filter_htaccess_h5files ----

  /** The file an AddDescription line describes. The line matches
      'AddDescription.*[0-9]{10}.h5$' when it starts with "AddDescription"
      and ends with the thirteen-character pattern (a line of the split text
      has no newline, so `$` is its end), and findall then finds exactly
      those last thirteen characters. */
  function DescribedName(line: string): (r: Option<string>)
    ensures r.Some? ==> H5Name(r.value) && StartsWith(line, "AddDescription") && EndsWith(line, r.value)
    ensures r.None? ==> !(StartsWith(line, "AddDescription") && |line| >= 27 && H5Name(line[|line| - 13..]))
  {
    if StartsWith(line, "AddDescription") && |line| >= 27 && H5Name(line[|line| - 13..]) then Some(line[|line| - 13..])
    else None
  }

  /** The path a line describes in `directory`. */
  function DescribedPath(directory: string, line: string): Option<string>
  {
    match DescribedName(line)
    case Some(n) => Some(PathJoin(directory, n))
    case None => None
  }

  /** The paths some of the lines describe. */
  function DescribedPaths(directory: string, lines: seq<string>): (r: set<string>)
    ensures forall l <- lines :: DescribedPath(directory, l).Some? ==> DescribedPath(directory, l).value in r
  {
    if lines == [] then {}
    else
      var d := DescribedPaths(directory, lines[..|lines| - 1]);
      assert forall l <- lines :: l in lines[..|lines| - 1] || l == lines[|lines| - 1];
      match DescribedPath(directory, lines[|lines| - 1])
      case Some(p) => d + {p}
      case None => d
  }

  /** The lines that are the first to describe one of the files. */
  function FirstDescriptions(directory: string, lines: seq<string>, h5files: seq<string>): seq<string>
  {
    if lines == [] then []
    else
      var init := lines[..|lines| - 1];
      var line := lines[|lines| - 1];
      var p := DescribedPath(directory, line);
      FirstDescriptions(directory, init, h5files) +
        (if p.Some? && p.value in h5files && p.value !in DescribedPaths(directory, init) then [line] else [])
  }

  /** filter_htaccess_h5files: the files that no line of the .htaccess text
      describes, and the lines that first describe one of the others. An
      .htaccess that cannot be read (`htaccess` is None) filters nothing. */
  method FilterHtaccessH5Files(directory: string, htaccess: Option<string>, h5files: seq<string>)
    returns (files: seq<string>, keep: seq<string>)
    requires NoDup(h5files)
    ensures htaccess.None? ==> files == h5files && keep == []
    ensures htaccess.Some? ==> files == Without(h5files, DescribedPaths(directory, Split(htaccess.value, '\n')))
    ensures htaccess.Some? ==> keep == FirstDescriptions(directory, Split(htaccess.value, '\n'), h5files)
  {
    if htaccess.None? {
      return h5files, [];
    }
    var lines := Split(htaccess.value, '\n');
    files, keep := h5files, [];
    WithoutAbsent(h5files, {});
    for i := 0 to |lines|
      invariant files == Without(h5files, DescribedPaths(directory, lines[..i]))
      invariant keep == FirstDescriptions(directory, lines[..i], h5files)
    {
      var line := lines[i];
      assert lines[..i + 1][..i] == lines[..i];
      ghost var d := DescribedPaths(directory, lines[..i]);
      WithoutNoDup(h5files, d);
      var name := DescribedName(line);
      if name.Some? {
        var path := PathJoin(directory, name.value);
        WithoutTwice(h5files, d, {path});
        if path in files {
          RemoveFirstIsWithout(files, path);
          files := RemoveFirst(files, path);
          keep := keep + [line];
        } else {
          WithoutAbsent(files, {path});
        }
      }
    }
    assert lines[..|lines|] == lines;
  }

  /** Every kept line describes one of the files. */
  lemma {:induction false} KeptLinesDescribeFiles(directory: string, lines: seq<string>, h5files: seq<string>)
    ensures forall l <- FirstDescriptions(directory, lines, h5files) ::
      l in lines && DescribedPath(directory, l).Some? &&
      DescribedPath(directory, l).value in h5files &&
      DescribedPath(directory, l).value in DescribedPaths(directory, lines)
  {
    if lines != [] {
      var init := lines[..|lines| - 1];
      KeptLinesDescribeFiles(directory, init, h5files);
      assert forall l <- init :: l in lines;
      assert DescribedPaths(directory, init) <= DescribedPaths(directory, lines);
    }
  }

  /** No two of the lines describe the same path. */
  predicate DistinctDescriptions(directory: string, keep: seq<string>)
  {
    forall i, j :: 0 <= i < j < |keep| ==> DescribedPath(directory, keep[i]) != DescribedPath(directory, keep[j])
  }

  /** No two kept lines describe the same file. */
  lemma {:induction false} KeptLinesDistinct(directory: string, lines: seq<string>, h5files: seq<string>)
    ensures DistinctDescriptions(directory, FirstDescriptions(directory, lines, h5files))
  {
    if lines != [] {
      var init := lines[..|lines| - 1];
      var line := lines[|lines| - 1];
      KeptLinesDistinct(directory, init, h5files);
      KeptLinesDescribeFiles(directory, init, h5files);
      var p := DescribedPath(directory, line);
      if p.Some? && p.value in h5files && p.value !in DescribedPaths(directory, init) {
        AppendDistinct(directory, FirstDescriptions(directory, init, h5files), line, DescribedPaths(directory, init));
      }
    }
  }

  lemma AppendDistinct(directory: string, before: seq<string>, line: string, d: set<string>)
    requires DistinctDescriptions(directory, before)
    requires forall l <- before :: DescribedPath(directory, l).Some? && DescribedPath(directory, l).value in d
    requires DescribedPath(directory, line).Some? && DescribedPath(directory, line).value !in d
    ensures DistinctDescriptions(directory, before + [line])
  {
    var keep := before + [line];
    forall i, j | 0 <= i < j < |keep| ensures DescribedPath(directory, keep[i]) != DescribedPath(directory, keep[j]) {
      assert keep[i] == before[i] && before[i] in before;
      if j < |before| {
        assert keep[j] == before[j];
      } else {
        assert keep[j] == line;
      }
    }
  }

  /** Every described file has a kept line. */
  lemma {:induction false} DescribedFilesKept(directory: string, lines: seq<string>, h5files: seq<string>)
    ensures forall f <- h5files :: f in DescribedPaths(directory, lines) ==>
      exists l <- FirstDescriptions(directory, lines, h5files) :: DescribedPath(directory, l) == Some(f)
  {
    if lines != [] {
      var init := lines[..|lines| - 1];
      DescribedFilesKept(directory, init, h5files);
      var before := FirstDescriptions(directory, init, h5files);
      var keep := FirstDescriptions(directory, lines, h5files);
      assert forall l <- before :: l in keep;
    }
  }

  // ---- filter_cutoff ----

  /** `cutoff_time and ctime < cutoff_time`: a datetime is always true, so
      only a missing cutoff disables the test. `ctime` is the change time
      of each path. */
  predicate TooOld(cutoff: Option<int>, ctime: string -> int, f: string)
  {
    cutoff.Some? && ctime(f) < cutoff.value
  }

  /** What filter_cutoff leaves: removing an old file from the list being
      iterated shifts the next file onto the index just visited, so that
      file is kept without being looked at. */
  function CutoffAsWritten(cutoff: Option<int>, ctime: string -> int, s: seq<string>): seq<string>
  {
    if s == [] then []
    else if TooOld(cutoff, ctime, s[0]) then
      (if |s| == 1 then [] else [s[1]] + CutoffAsWritten(cutoff, ctime, s[2..]))
    else [s[0]] + CutoffAsWritten(cutoff, ctime, s[1..])
  }

  /** The state of filter_cutoff's loop: `done` is the part of the list
      the iterator has passed, `j` the index in the original list of the
      first file not yet passed. */
  ghost predicate CutoffLoop(cutoff: Option<int>, ctime: string -> int, h5files: seq<string>, files: seq<string>, i: nat,
                             done: seq<string>, j: nat)
  {
    j <= |h5files| && files == done + h5files[j..] &&
    (i == |done| || (i == |done| + 1 && j == |h5files|)) &&
    NoDup(files) &&
    CutoffAsWritten(cutoff, ctime, h5files) == done + CutoffAsWritten(cutoff, ctime, h5files[j..])
  }

  /** filter_cutoff as written: a list iterator over the list it removes
      from. */
  method FilterCutoffAsWritten(cutoff: Option<int>, ctime: string -> int, h5files: seq<string>) returns (files: seq<string>)
    requires NoDup(h5files)
    ensures files == CutoffAsWritten(cutoff, ctime, h5files)
  {
    files := h5files;
    var i: nat := 0;
    ghost var done: seq<string> := [];
    ghost var j: nat := 0;
    while i < |files|
      invariant CutoffLoop(cutoff, ctime, h5files, files, i, done, j)
      decreases |files| - i
    {
      files, i, done, j := CutoffVisit(cutoff, ctime, h5files, files, i, done, j);
    }
  }

  /** One turn of filter_cutoff's loop: the file under the iterator is
      removed when it is old, and the iterator moves on by one place. */
  method CutoffVisit(cutoff: Option<int>, ctime: string -> int, h5files: seq<string>, files: seq<string>, i: nat,
                     ghost done: seq<string>, ghost j: nat)
    returns (files': seq<string>, i': nat, ghost done': seq<string>, ghost j': nat)
    requires i < |files| && CutoffLoop(cutoff, ctime, h5files, files, i, done, j)
    ensures CutoffLoop(cutoff, ctime, h5files, files', i', done', j')
    ensures |files'| - i' < |files| - i
  {
    var h5 := files[i];
    assert h5 == h5files[j];
    i' := i + 1;
    if TooOld(cutoff, ctime, h5) {
      OldStep(cutoff, ctime, h5files, done, j);
      files' := RemoveFirst(files, h5);
      if j + 1 < |h5files| {
        done', j' := done + [h5files[j + 1]], j + 2;
      } else {
        done', j' := done, j + 1;
      }
    } else {
      KeepStep(cutoff, ctime, h5files, done, j);
      files', done', j' := files, done + [h5], j + 1;
    }
  }

  /** The iterator passes an old file: it is removed and the file after it
      is passed over. */
  lemma OldStep(cutoff: Option<int>, ctime: string -> int, s: seq<string>, done: seq<string>, j: nat)
    requires j < |s| && NoDup(done + s[j..]) && TooOld(cutoff, ctime, s[j])
    requires CutoffAsWritten(cutoff, ctime, s) == done + CutoffAsWritten(cutoff, ctime, s[j..])
    ensures RemoveFirst(done + s[j..], s[j]) == done + s[j + 1..]
    ensures NoDup(done + s[j + 1..])
    ensures j + 1 < |s| ==>
      CutoffAsWritten(cutoff, ctime, s) == (done + [s[j + 1]]) + CutoffAsWritten(cutoff, ctime, s[j + 2..]) &&
      done + s[j + 1..] == (done + [s[j + 1]]) + s[j + 2..]
    ensures j + 1 == |s| ==> CutoffAsWritten(cutoff, ctime, s) == done && done + s[j + 1..] == done
  {
    CutoffUnfold(cutoff, ctime, s, j);
    assert s[j..] == [s[j]] + s[j + 1..];
    NoDupSplit(done, s[j], s[j + 1..]);
    RemoveAfter(done, s[j], s[j + 1..]);
    if j + 1 < |s| {
      assert s[j + 1..] == [s[j + 1]] + s[j + 2..];
      AppendAssoc(done, [s[j + 1]], CutoffAsWritten(cutoff, ctime, s[j + 2..]));
      AppendAssoc(done, [s[j + 1]], s[j + 2..]);
    } else {
      assert s[j + 1..] == [];
    }
  }

  /** The iterator passes a file that is recent enough: it stays. */
  lemma KeepStep(cutoff: Option<int>, ctime: string -> int, s: seq<string>, done: seq<string>, j: nat)
    requires j < |s| && !TooOld(cutoff, ctime, s[j])
    requires CutoffAsWritten(cutoff, ctime, s) == done + CutoffAsWritten(cutoff, ctime, s[j..])
    ensures CutoffAsWritten(cutoff, ctime, s) == (done + [s[j]]) + CutoffAsWritten(cutoff, ctime, s[j + 1..])
    ensures done + s[j..] == (done + [s[j]]) + s[j + 1..]
  {
    CutoffUnfold(cutoff, ctime, s, j);
    var rest := CutoffAsWritten(cutoff, ctime, s[j + 1..]);
    assert CutoffAsWritten(cutoff, ctime, s[j..]) == [s[j]] + rest;
    AppendAssoc(done, [s[j]], rest);
    assert s[j..] == [s[j]] + s[j + 1..];
    AppendAssoc(done, [s[j]], s[j + 1..]);
  }

  /** A list without duplicates, split around one of its elements. */
  lemma NoDupSplit(a: seq<string>, x: string, b: seq<string>)
    requires NoDup(a + ([x] + b))
    ensures x !in a && NoDup(a + b)
  {
    var s := a + ([x] + b);
    forall t | 0 <= t < |a| ensures a[t] != x {
      assert s[t] == a[t] && s[|a|] == x;
    }
    var r := a + b;
    forall p, q | 0 <= p < q < |r| ensures r[p] != r[q] {
      var p' := if p < |a| then p else p + 1;
      var q' := if q < |a| then q else q + 1;
      assert r[p] == s[p'] && r[q] == s[q'];
    }
  }

  /** list.remove(x) on a list whose first x follows `a`. */
  lemma {:induction false} RemoveAfter(a: seq<string>, x: string, b: seq<string>)
    requires x !in a
    ensures RemoveFirst(a + ([x] + b), x) == a + b
  {
    if a != [] {
      assert (a + ([x] + b))[1..] == a[1..] + ([x] + b);
      assert x !in a[1..];
      RemoveAfter(a[1..], x, b);
      assert a + b == [a[0]] + (a[1..] + b);
    }
  }

  /** One step of CutoffAsWritten from index j. */
  lemma CutoffUnfold(cutoff: Option<int>, ctime: string -> int, s: seq<string>, j: nat)
    requires j < |s|
    ensures CutoffAsWritten(cutoff, ctime, s[j..]) ==
      if TooOld(cutoff, ctime, s[j]) then
        (if j + 1 < |s| then [s[j + 1]] + CutoffAsWritten(cutoff, ctime, s[j + 2..]) else [])
      else [s[j]] + CutoffAsWritten(cutoff, ctime, s[j + 1..])
  {
    var rest := s[j..];
    assert rest[0] == s[j] && rest[1..] == s[j + 1..];
    if j + 1 < |s| { assert rest[1] == s[j + 1] && rest[2..] == s[j + 2..]; }
  }

  /** filter_cutoff with every old file removed, as intended. */
  function FilterCutoff(cutoff: Option<int>, ctime: string -> int, s: seq<string>): (r: seq<string>)
    ensures forall f :: f in r <==> f in s && !TooOld(cutoff, ctime, f)
    ensures cutoff.None? ==> r == s
  {
    if s == [] then []
    else (if TooOld(cutoff, ctime, s[0]) then [] else [s[0]]) + FilterCutoff(cutoff, ctime, s[1..])
  }

  /** As written, every file the intended filter keeps is kept, and nothing
      is added. */
  lemma {:induction false} CutoffAsWrittenKeepsRecent(cutoff: Option<int>, ctime: string -> int, s: seq<string>)
    ensures forall f <- FilterCutoff(cutoff, ctime, s) :: f in CutoffAsWritten(cutoff, ctime, s)
    ensures forall f <- CutoffAsWritten(cutoff, ctime, s) :: f in s
  {
    if s != [] {
      CutoffAsWrittenKeepsRecent(cutoff, ctime, s[1..]);
      if |s| > 1 {
        CutoffAsWrittenKeepsRecent(cutoff, ctime, s[2..]);
        assert s[1..][1..] == s[2..];
        assert forall f <- s[2..] :: f in s;
      }
      assert forall f <- s[1..] :: f in s;
    }
  }

  /** Two old files in a row: as written the second survives the cutoff. */
  lemma CutoffSkipsNext(cutoff: Option<int>, ctime: string -> int, a: string, b: string)
    requires TooOld(cutoff, ctime, a) && TooOld(cutoff, ctime, b)
    ensures CutoffAsWritten(cutoff, ctime, [a, b]) == [b]
    ensures FilterCutoff(cutoff, ctime, [a, b]) == []
  {
    assert [a, b][2..] == [];
    assert [a, b][1..] == [b];
    assert [b][1..] == [];
    assert FilterCutoff(cutoff, ctime, [b]) == [] + FilterCutoff(cutoff, ctime, []);
  }

  // ---- check_katdal ----

  /** (ctime.isoformat(), os.path.basename(h5), fsize) */
  datatype Entry = Entry(ctime: string, name: string, size: int)

  /** What katdal.open and str of the result make of a file: None when both
      succeed, else the repr of the exception. */
  type Opener = string -> Option<string>

  /** The error key: the repr with double quotes made single. */
  function ErrorKey(opens: Opener, h: string): Option<string>
  {
    match opens(h)
    case Some(e) => Some(ReplaceChar(e, '"', '\''))
    case None => None
  }

  function EntryOf(ctime: string -> string, size: string -> int, h: string): Entry
  {
    Entry(ctime(h), Basename(h), size(h))
  }

  /** The files that open, in order. */
  function Passing(opens: Opener, s: seq<string>): (r: seq<string>)
    ensures forall h :: h in r <==> h in s && opens(h).None?
  {
    if s == [] then []
    else Passing(opens, s[..|s| - 1]) + (if opens(s[|s| - 1]).None? then [s[|s| - 1]] else [])
  }

  /** The files that fail, in order. */
  function Failed(opens: Opener, s: seq<string>): (r: seq<string>)
    ensures forall h :: h in r <==> h in s && opens(h).Some?
  {
    if s == [] then []
    else Failed(opens, s[..|s| - 1]) + (if opens(s[|s| - 1]).Some? then [s[|s| - 1]] else [])
  }

  /** The entries of the files whose error key is `key`, in order. */
  function Failing(opens: Opener, ctime: string -> string, size: string -> int, s: seq<string>, key: string): seq<Entry>
  {
    if s == [] then []
    else
      var h := s[|s| - 1];
      Failing(opens, ctime, size, s[..|s| - 1], key) +
        (if ErrorKey(opens, h) == Some(key) then [EntryOf(ctime, size, h)] else [])
  }

  /** The error keys of the failing files. */
  function ErrorKeys(opens: Opener, s: seq<string>): set<string>
  {
    if s == [] then {}
    else
      var d := ErrorKeys(opens, s[..|s| - 1]);
      var h := s[|s| - 1];
      if ErrorKey(opens, h).Some? then d + {ErrorKey(opens, h).value} else d
  }

  /** A key is among the error keys exactly when some file fails with it. */
  lemma {:induction false} ErrorKeysMeaning(opens: Opener, s: seq<string>)
    ensures forall k :: k in ErrorKeys(opens, s) <==> exists h <- s :: ErrorKey(opens, h) == Some(k)
  {
    if s != [] {
      var init, h := s[..|s| - 1], s[|s| - 1];
      ErrorKeysMeaning(opens, init);
      assert forall x <- s :: x in init || x == h;
      assert forall x <- init :: x in s;
    }
  }

  /** `errors` holds the failures of `s` grouped by error key. */
  ghost predicate Grouped(errors: map<string, seq<Entry>>, opens: Opener, ctime: string -> string, size: string -> int, s: seq<string>)
  {
    errors.Keys == ErrorKeys(opens, s) && forall k <- errors :: errors[k] == Failing(opens, ctime, size, s, k)
  }

  /** check_katdal: the failing files grouped by error key, each group in
      file order, and the passing files. */
  method CheckKatdal(h5files: seq<string>, opens: Opener, ctime: string -> string, size: string -> int)
    returns (errors: map<string, seq<Entry>>, pass: seq<string>)
    ensures pass == Passing(opens, h5files)
    ensures errors.Keys == ErrorKeys(opens, h5files)
    ensures forall k <- errors :: errors[k] == Failing(opens, ctime, size, h5files, k)
  {
    errors, pass := map[], [];
    for i := 0 to |h5files|
      invariant pass == Passing(opens, h5files[..i])
      invariant Grouped(errors, opens, ctime, size, h5files[..i])
    {
      var h5 := h5files[i];
      assert h5files[..i + 1] == h5files[..i] + [h5];
      GroupStep(errors, opens, ctime, size, h5files[..i], h5);
      var entry := Entry(ctime(h5), Basename(h5), size(h5));
      assert entry == EntryOf(ctime, size, h5);
      match opens(h5)
      case None =>
        pass := pass + [h5];
      case Some(e) =>
        var key := ReplaceChar(e, '"', '\'');
        assert ErrorKey(opens, h5) == Some(key);
        if key in errors {
          errors := errors[key := errors[key] + [entry]];
        } else {
          errors := errors[key := [entry]];
        }
    }
    assert h5files[..|h5files|] == h5files;
  }

  /** One more file: its entry joins the group of its key, or it passes. */
  lemma GroupStep(errors: map<string, seq<Entry>>, opens: Opener, ctime: string -> string, size: string -> int,
                  s: seq<string>, h: string)
    requires Grouped(errors, opens, ctime, size, s)
    ensures ErrorKey(opens, h).None? ==> Grouped(errors, opens, ctime, size, s + [h])
    ensures ErrorKey(opens, h).Some? && ErrorKey(opens, h).value in errors ==>
      var key := ErrorKey(opens, h).value;
      Grouped(errors[key := errors[key] + [EntryOf(ctime, size, h)]], opens, ctime, size, s + [h])
    ensures ErrorKey(opens, h).Some? && ErrorKey(opens, h).value !in errors ==>
      Grouped(errors[ErrorKey(opens, h).value := [EntryOf(ctime, size, h)]], opens, ctime, size, s + [h])
  {
    var t := s + [h];
    assert t[..|t| - 1] == s && t[|t| - 1] == h;
    var e := EntryOf(ctime, size, h);
    forall k ensures Failing(opens, ctime, size, t, k) ==
                     Failing(opens, ctime, size, s, k) + (if ErrorKey(opens, h) == Some(k) then [e] else []) {
    }
    if ErrorKey(opens, h).Some? {
      var key := ErrorKey(opens, h).value;
      assert ErrorKeys(opens, t) == ErrorKeys(opens, s) + {key};
      if key !in errors {
        NoKeyNoEntries(opens, ctime, size, s, key);
      }
      var m := errors[key := (if key in errors then errors[key] else []) + [e]];
      forall k <- m ensures m[k] == Failing(opens, ctime, size, t, k) {
        if k != key { assert m[k] == errors[k]; }
      }
    } else {
      assert ErrorKeys(opens, t) == ErrorKeys(opens, s);
    }
  }

  lemma {:induction false} NoKeyNoEntries(opens: Opener, ctime: string -> string, size: string -> int, s: seq<string>, k: string)
    requires k !in ErrorKeys(opens, s)
    ensures Failing(opens, ctime, size, s, k) == []
  {
    if s != [] {
      assert forall x <- s[..|s| - 1] :: x in s;
      NoKeyNoEntries(opens, ctime, size, s[..|s| - 1], k);
      assert s[|s| - 1] in s;
    }
  }

  /** Each file lands in exactly one place: it passes, or its entry is in
      the group of its own error key, and the two lists account for every
      file. */
  lemma {:induction false} CheckedOnce(opens: Opener, ctime: string -> string, size: string -> int, s: seq<string>)
    ensures |Passing(opens, s)| + |Failed(opens, s)| == |s|
    ensures forall h <- Failed(opens, s) :: (ErrorKey(opens, h).Some? &&
      EntryOf(ctime, size, h) in Failing(opens, ctime, size, s, ErrorKey(opens, h).value))
  {
    if s != [] {
      var init := s[..|s| - 1];
      CheckedOnce(opens, ctime, size, init);
      forall h <- Failed(opens, s)
        ensures EntryOf(ctime, size, h) in Failing(opens, ctime, size, s, ErrorKey(opens, h).value)
      {
        var k := ErrorKey(opens, h).value;
        if h in Failed(opens, init) {
          assert Failing(opens, ctime, size, init, k) <= Failing(opens, ctime, size, s, k);
        } else {
          assert h == s[|s| - 1];
        }
      }
    }
  }

  // ---- create_descriptions ----

  /** Python's ordering of (ctime, name, size) tuples. */
  predicate EntryLt(a: Entry, b: Entry)
  {
    StrLt(a.ctime, b.ctime) ||
    (a.ctime == b.ctime && (StrLt(a.name, b.name) || (a.name == b.name && a.size < b.size)))
  }

  predicate EntryLe(a: Entry, b: Entry)
  {
    a == b || EntryLt(a, b)
  }

  lemma EntryLtTotal(a: Entry, b: Entry)
    ensures a == b || EntryLt(a, b) || EntryLt(b, a)
  {
    StrLtTotal(a.ctime, b.ctime);
    StrLtTotal(a.name, b.name);
  }

  lemma EntryLtTrans(a: Entry, b: Entry, c: Entry)
    requires EntryLt(a, b) && EntryLt(b, c)
    ensures EntryLt(a, c)
  {
    if StrLt(a.ctime, b.ctime) && StrLt(b.ctime, c.ctime) {
      StrLtTrans(a.ctime, b.ctime, c.ctime);
    }
    if a.ctime == b.ctime == c.ctime && StrLt(a.name, b.name) && StrLt(b.name, c.name) {
      StrLtTrans(a.name, b.name, c.name);
    }
  }

  /** Descending order, as sorted(..., reverse=True) leaves it. */
  predicate Descending(s: seq<Entry>)
  {
    forall i, j :: 0 <= i < j < |s| ==> EntryLe(s[j], s[i])
  }

  lemma ConsDescending(h: Entry, t: seq<Entry>)
    requires Descending(t) && forall j :: 0 <= j < |t| ==> EntryLe(t[j], h)
    ensures Descending([h] + t)
  {
    var r := [h] + t;
    forall i, j | 0 <= i < j < |r| ensures EntryLe(r[j], r[i]) {
      assert r[j] == t[j - 1];
      if i > 0 { assert r[i] == t[i - 1]; }
    }
  }

  /** What is at least the head of a descending sequence is at least all of it. */
  lemma AboveHead(x: Entry, s: seq<Entry>)
    requires Descending(s) && s != [] && EntryLe(s[0], x)
    ensures forall j :: 0 <= j < |s| ==> EntryLe(s[j], x)
  {
    forall j | 0 < j < |s| ensures EntryLe(s[j], x) {
      if s[j] != s[0] && s[0] != x { EntryLtTrans(s[j], s[0], x); }
    }
  }

  lemma HeadAboveInsert(s: seq<Entry>, x: Entry, t: seq<Entry>)
    requires Descending(s) && s != [] && EntryLt(x, s[0])
    requires multiset(t) == multiset(s[1..]) + multiset{x}
    ensures forall j :: 0 <= j < |t| ==> EntryLe(t[j], s[0])
  {
    forall j | 0 <= j < |t| ensures EntryLe(t[j], s[0]) {
      assert t[j] in multiset(t);
      if t[j] != x {
        assert t[j] in multiset(s[1..]);
        var k :| 0 <= k < |s[1..]| && s[1..][k] == t[j];
        assert s[k + 1] == t[j];
      }
    }
  }

  function InsertDescending(x: Entry, s: seq<Entry>): (r: seq<Entry>)
    requires Descending(s)
    ensures Descending(r)
    ensures multiset(r) == multiset(s) + multiset{x}
    ensures |r| == |s| + 1
  {
    if s == [] then [x]
    else if EntryLe(s[0], x) then
      AboveHead(x, s);
      ConsDescending(x, s);
      [x] + s
    else
      EntryLtTotal(x, s[0]);
      var t := InsertDescending(x, s[1..]);
      assert s == [s[0]] + s[1..];
      HeadAboveInsert(s, x, t);
      ConsDescending(s[0], t);
      [s[0]] + t
  }

  /** sorted(val, reverse=True) */
  function SortDescending(s: seq<Entry>): (r: seq<Entry>)
    ensures Descending(r)
    ensures multiset(r) == multiset(s)
    ensures |r| == |s|
  {
    if s == [] then []
    else
      assert s == [s[0]] + s[1..];
      InsertDescending(s[0], SortDescending(s[1..]))
  }

  /** 'AddDescription "%s: %s" %s' % (error_type, key, name) */
  function DescriptionLine(errorType: string, key: string, name: string): string
  {
    "AddDescription \"" + errorType + ": " + key + "\" " + name
  }

  /** The lines of one key's entries, in the order given. */
  function BlockLines(errorType: string, key: string, vals: seq<Entry>): (r: seq<string>)
    ensures |r| == |vals|
    ensures forall j :: 0 <= j < |vals| ==> r[j] == DescriptionLine(errorType, key, vals[j].name)
  {
    if vals == [] then []
    else BlockLines(errorType, key, vals[..|vals| - 1]) + [DescriptionLine(errorType, key, vals[|vals| - 1].name)]
  }

  /** The description lines for the keys in the order the dictionary
      yields them. */
  function Descriptions(errorType: string, order: seq<string>, errors: map<string, seq<Entry>>): seq<string>
    requires forall k <- order :: k in errors
  {
    if order == [] then []
    else
      var k := order[|order| - 1];
      Descriptions(errorType, order[..|order| - 1], errors) + BlockLines(errorType, k, SortDescending(errors[k]))
  }

  /** The number of entries under the keys. */
  function EntryCount(order: seq<string>, errors: map<string, seq<Entry>>): nat
    requires forall k <- order :: k in errors
  {
    if order == [] then 0 else EntryCount(order[..|order| - 1], errors) + |errors[order[|order| - 1]]|
  }

  /** create_descriptions; `order` is the order in which iteritems yields the
      keys, each once. */
  method CreateDescriptions(errorType: string, errors: map<string, seq<Entry>>, order: seq<string>)
    returns (descriptions: seq<string>)
    requires NoDup(order) && forall k :: k in order <==> k in errors
    ensures descriptions == Descriptions(errorType, order, errors)
  {
    descriptions := [];
    for i := 0 to |order|
      invariant descriptions == Descriptions(errorType, order[..i], errors)
    {
      var key := order[i];
      assert order[..i + 1][..i] == order[..i] && order[..i + 1][i] == key;
      descriptions := AppendBlock(descriptions, errorType, key, SortDescending(errors[key]));
    }
    assert order[..|order|] == order;
  }

  /** The inner loop of create_descriptions: one line per sorted entry. */
  method AppendBlock(descriptions: seq<string>, errorType: string, key: string, vals: seq<Entry>)
    returns (r: seq<string>)
    ensures r == descriptions + BlockLines(errorType, key, vals)
  {
    r := descriptions;
    for j := 0 to |vals|
      invariant r == descriptions + BlockLines(errorType, key, vals[..j])
    {
      assert vals[..j + 1][..j] == vals[..j];
      r := r + [DescriptionLine(errorType, key, vals[j].name)];
    }
    assert vals[..|vals|] == vals;
  }

  /** One line per entry. */
  lemma {:induction false} DescriptionsCount(errorType: string, order: seq<string>, errors: map<string, seq<Entry>>)
    requires forall k <- order :: k in errors
    ensures |Descriptions(errorType, order, errors)| == EntryCount(order, errors)
  {
    if order != [] {
      assert forall k <- order[..|order| - 1] :: k in order;
      DescriptionsCount(errorType, order[..|order| - 1], errors);
    }
  }

  /** A description written for a capture file is recognised by the next
      pass over the .htaccess, which then skips the file. */
  lemma DescriptionNamesFile(errorType: string, key: string, name: string)
    requires H5Name(name)
    ensures DescribedName(DescriptionLine(errorType, key, name)) == Some(name)
  {
    var head := "AddDescription";
    var pre := head + " \"" + errorType + ": " + key + "\" ";
    assert DescriptionLine(errorType, key, name) == pre + name;
    assert pre[..|head|] == head;
    DescribedAfter(pre, name);
  }

  /** Whatever follows the directive, a capture file name at the end of the
      line is the name it describes. */
  lemma DescribedAfter(pre: string, name: string)
    requires StartsWith(pre, "AddDescription") && H5Name(name)
    ensures DescribedName(pre + name) == Some(name)
  {
    var line := pre + name;
    assert line[..14] == pre[..14];
    assert line[|line| - 13..] == name;
  }
}
