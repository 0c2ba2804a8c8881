// The Solr search client: a date range is bracketed, upper-cased and its
// day/month/year dates rewritten one by one into ISO 8601; the text, the
// date range and the keyword filters become the terms of one query, and
// the index's answer is kept on the client.  The conversion of one local
// date stamp to ISO 8601 (time.strptime / mktime / gmtime / strftime) is
// the parameter `iso`; the Solr index is the parameter `solr`.

module SolrClients {
  import opened Wrappers
  import opened Strs
  import opened Metadata

  // ---------------------------------------------------------------------
  // The date pattern [0-9]{1,2}/[0-9]{1,2}/[0-9]{4}|[0-9]{1,2}/[0-9]{1,2}/[0-9]{2}

  /** The digit counts of the three parts of one date match. */
  datatype Shape = Shape(day: nat, month: nat, year: nat)

  function Width(sh: Shape): nat
  {
    sh.day + sh.month + sh.year + 2
  }

  predicate DigitsAt(s: string, i: nat, n: nat)
  {
    i + n <= |s| && forall k :: i <= k < i + n ==> IsDigit(s[k])
  }

  /** The text at `i` matches one alternative of the pattern with these
      part widths. */
  predicate ShapeAt(s: string, i: nat, sh: Shape)
  {
    (sh.day == 1 || sh.day == 2) && (sh.month == 1 || sh.month == 2) && (sh.year == 2 || sh.year == 4) &&
    DigitsAt(s, i, sh.day) && i + sh.day < |s| && s[i + sh.day] == '/' &&
    DigitsAt(s, i + sh.day + 1, sh.month) && i + sh.day + sh.month + 1 < |s| && s[i + sh.day + sh.month + 1] == '/' &&
    DigitsAt(s, i + sh.day + sh.month + 2, sh.year)
  }

  /** One `[0-9]{1,2}/` group at `i`: its digit count, two tried before one. */
  function Group(s: string, i: nat): (r: Option<nat>)
    ensures r.Some? ==> (r.value == 1 || r.value == 2) && DigitsAt(s, i, r.value) && i + r.value < |s| && s[i + r.value] == '/'
  {
    if i + 2 < |s| && IsDigit(s[i]) && IsDigit(s[i + 1]) && s[i + 2] == '/' then Some(2)
    else if i + 1 < |s| && IsDigit(s[i]) && s[i + 1] == '/' then Some(1)
    else None
  }

  /** The match at `i` as the backtracking matcher finds it: the
      four-digit-year alternative first, then the two-digit one. */
  function MatchAt(s: string, i: nat): (r: Option<Shape>)
    ensures r.Some? ==> ShapeAt(s, i, r.value) && i + Width(r.value) <= |s|
  {
    match Group(s, i)
    case None => None
    case Some(d) =>
      match Group(s, i + d + 1)
      case None => None
      case Some(m) =>
        if DigitsAt(s, i + d + m + 2, 4) then Some(Shape(d, m, 4))
        else if DigitsAt(s, i + d + m + 2, 2) then Some(Shape(d, m, 2))
        else None
  }

  /** Whenever some alternative matches at `i`, the matcher finds a match
      there with the same day and month, and a four-digit year exactly
      when four digits follow the second '/'. */
  lemma MatchAtComplete(s: string, i: nat, sh: Shape)
    requires ShapeAt(s, i, sh)
    ensures MatchAt(s, i) == Some(Shape(sh.day, sh.month,
      if DigitsAt(s, i + sh.day + sh.month + 2, 4) then 4 else 2))
  {
    assert Group(s, i) == Some(sh.day) by {
      if sh.day == 1 { assert !IsDigit(s[i + 1]); }
    }
    assert Group(s, i + sh.day + 1) == Some(sh.month) by {
      if sh.month == 1 { assert !IsDigit(s[i + sh.day + 2]); }
    }
  }

  /** re.findall: scanning resumes after each match, or one character on. */
  function Findall(s: string): seq<string>
    decreases |s|
  {
    if s == [] then []
    else match MatchAt(s, 0)
      case Some(sh) => [s[..Width(sh)]] + Findall(s[Width(sh)..])
      case None => Findall(s[1..])
  }

  /** A found date: digits and '/', starting with a digit. */
  predicate DateChars(m: string)
  {
    |m| > 0 && IsDigit(m[0]) && forall k :: 0 <= k < |m| ==> IsDigit(m[k]) || m[k] == '/'
  }

  lemma ShapeChars(s: string, i: nat, sh: Shape)
    requires ShapeAt(s, i, sh) && i + Width(sh) <= |s|
    ensures DateChars(s[i..i + Width(sh)])
  {
    var m := s[i..i + Width(sh)];
    forall k | 0 <= k < |m|
      ensures IsDigit(m[k]) || m[k] == '/'
    {
      assert m[k] == s[i + k];
    }
  }

  /** Every string re.findall returns is made of digits and '/' and starts
      with a digit. */
  lemma {:induction false} FoundAreDates(s: string)
    ensures forall m :: m in Findall(s) ==> DateChars(m)
    decreases |s|
  {
    if s != [] {
      match MatchAt(s, 0)
      case Some(sh) =>
        ShapeChars(s, 0, sh);
        FoundAreDates(s[Width(sh)..]);
      case None =>
        FoundAreDates(s[1..]);
    }
  }

  /** A string without '/' holds no date. */
  lemma {:induction false} NoSlashNoDates(s: string)
    requires '/' !in s
    ensures Findall(s) == []
    decreases |s|
  {
    if s != [] {
      assert Group(s, 0).None? by {
        if 1 < |s| { assert s[1] in s; }
        if 2 < |s| { assert s[2] in s; }
      }
      assert '/' !in s[1..] by { assert forall c :: c in s[1..] ==> c in s; }
      NoSlashNoDates(s[1..]);
    }
  }

  // ---------------------------------------------------------------------
  // str.replace(old, new, 1)

  predicate OccursAt(s: string, pat: string, j: nat)
  {
    j + |pat| <= |s| && s[j..j + |pat|] == pat
  }

  /** str.find from `i`: the first index from `i` where `pat` occurs. */
  function IndexFrom(s: string, pat: string, i: nat): (r: Option<nat>)
    ensures r.Some? ==> i <= r.value && OccursAt(s, pat, r.value)
    ensures r.Some? ==> forall j :: i <= j < r.value ==> !OccursAt(s, pat, j)
    ensures r.None? ==> forall j :: i <= j ==> !OccursAt(s, pat, j)
    decreases |s| - i
  {
    if i + |pat| > |s| then None
    else if s[i..i + |pat|] == pat then Some(i)
    else IndexFrom(s, pat, i + 1)
  }

  /** An occurrence with none before it is the one str.find returns. */
  lemma {:induction false} IndexIs(s: string, pat: string, i: nat, k: nat)
    requires i <= k && OccursAt(s, pat, k)
    requires forall j :: i <= j < k ==> !OccursAt(s, pat, j)
    ensures IndexFrom(s, pat, i) == Some(k)
    decreases k - i
  {
    if i < k {
      IndexIs(s, pat, i + 1, k);
    }
  }

  /** str.replace(pat, rep, 1): the first occurrence only; an empty `pat`
      occurs at the front. */
  function ReplaceFirst(s: string, pat: string, rep: string): (r: string)
  {
    match IndexFrom(s, pat, 0)
    case None => s
    case Some(k) => s[..k] + rep + s[k + |pat|..]
  }

  /** Replacing a date inside a range keeps its '[' in front and its ']'
      at the end, whatever the replacement. */
  lemma ReplaceKeepsBrackets(s: string, m: string, rep: string)
    requires StartsWith(s, "[") && EndsWith(s, "]") && DateChars(m)
    ensures var r := ReplaceFirst(s, m, rep); StartsWith(r, "[") && EndsWith(r, "]")
  {
    var o := IndexFrom(s, m, 0);
    if o.Some? {
      var k := o.value;
      assert s[k] == s[k..k + |m|][0] == m[0];
      assert k != 0;
      assert s[k + |m| - 1] == s[k..k + |m|][|m| - 1] == m[|m| - 1];
      assert k + |m| < |s|;
      var r := s[..k] + rep + s[k + |m|..];
      assert r[0] == s[0];
      assert r[..1] == [r[0]] && s[..1] == [s[0]];
      assert r[|r| - 1] == s[|s| - 1];
      assert r[|r| - 1..] == [r[|r| - 1]] && s[|s| - 1..] == [s[|s| - 1]];
    }
  }

  // ---------------------------------------------------------------------
  // _date_to_ISO8601

  /** The ISO 8601 form of one found date, read at midnight SAST. */
  function IsoOf(iso: string -> string, m: string): string
  {
    iso(m + " 00:00:00 SAST")
  }

  /** The found dates `ms`, each replaced once, in order, by its ISO form. */
  function Rewrites(s: string, ms: seq<string>, iso: string -> string): string
    decreases |ms|
  {
    if ms == [] then s
    else
      var m := ms[|ms| - 1];
      ReplaceFirst(Rewrites(s, ms[..|ms| - 1], iso), m, IsoOf(iso, m))
  }

  /** What _date_to_ISO8601 returns. */
  function IsoDates(s: string, iso: string -> string): string
  {
    Rewrites(s, Findall(s), iso)
  }

  /** _date_to_ISO8601: the matches are found once, on the text as given,
      and each is then replaced in the text as rewritten so far. */
  method DateToIso8601(dateRange: string, iso: string -> string) returns (r: string)
    ensures r == IsoDates(dateRange, iso)
  {
    var matches := Findall(dateRange);
    r := dateRange;
    for i := 0 to |matches|
      invariant r == Rewrites(dateRange, matches[..i], iso)
    {
      assert matches[..i + 1][..i] == matches[..i];
      r := ReplaceFirst(r, matches[i], IsoOf(iso, matches[i]));
    }
    assert matches[..|matches|] == matches;
  }

  /** Rewriting dates keeps a range's brackets. */
  lemma {:induction false} RewritesKeepBrackets(s: string, ms: seq<string>, iso: string -> string)
    requires StartsWith(s, "[") && EndsWith(s, "]")
    requires forall m :: m in ms ==> DateChars(m)
    ensures var r := Rewrites(s, ms, iso); StartsWith(r, "[") && EndsWith(r, "]")
    decreases |ms|
  {
    if ms != [] {
      var m := ms[|ms| - 1];
      assert m in ms;
      assert forall x :: x in ms[..|ms| - 1] ==> x in ms;
      RewritesKeepBrackets(s, ms[..|ms| - 1], iso);
      ReplaceKeepsBrackets(Rewrites(s, ms[..|ms| - 1], iso), m, IsoOf(iso, m));
    }
  }

  /** Text without '/' has no date to rewrite. */
  lemma NoDatesUnchanged(s: string, iso: string -> string)
    requires '/' !in s
    ensures IsoDates(s, iso) == s
  {
    NoSlashNoDates(s);
  }

  // ---------------------------------------------------------------------
  // _parse_date_range

  /** `[` is put in front when missing, then `]` at the end when missing. */
  function Bracketed(s: string): (r: string)
    ensures StartsWith(r, "[") && EndsWith(r, "]")
    ensures r == (if StartsWith(s, "[") then "" else "[") + s + (if EndsWith(s, "]") then "" else "]")
  {
    var t := if StartsWith(s, "[") then s else "[" + s;
    assert t[..1] == "[";
    assert EndsWith(t, "]") <==> EndsWith(s, "]") by {
      if t != s {
        if s == [] {
          assert t == "[" && t[0] != ']';
        } else {
          assert t[|t| - 1] == s[|s| - 1];
          assert t[|t| - 1..] == [t[|t| - 1]] && s[|s| - 1..] == [s[|s| - 1]];
        }
      }
    }
    var r := if EndsWith(t, "]") then t else t + "]";
    assert r[..1] == t[..1];
    r
  }

  /** Bracketing a bracketed range changes nothing. */
  lemma BracketedIdempotent(s: string)
    ensures Bracketed(Bracketed(s)) == Bracketed(s)
  {
  }

  /** Upper-casing keeps a range's brackets. */
  lemma UpperKeepsBrackets(s: string)
    requires StartsWith(s, "[") && EndsWith(s, "]")
    ensures StartsWith(Upper(s), "[") && EndsWith(Upper(s), "]")
  {
    assert Upper(s)[0] == UpperChar(s[0]);
    assert Upper(s)[|s| - 1] == UpperChar(s[|s| - 1]);
  }

  /** What _parse_date_range returns. */
  function ParsedDateRange(s: string, iso: string -> string): string
  {
    IsoDates(Upper(Bracketed(s)), iso)
  }

  /** _parse_date_range. */
  method ParseDateRange(dateRange: string, iso: string -> string) returns (r: string)
    ensures r == ParsedDateRange(dateRange, iso)
  {
    r := DateToIso8601(Upper(Bracketed(dateRange)), iso);
  }

  /** Whatever the input and the date conversion, the parsed range starts
      with '[' and ends with ']'. */
  lemma ParsedIsBracketed(s: string, iso: string -> string)
    ensures var r := ParsedDateRange(s, iso); StartsWith(r, "[") && EndsWith(r, "]")
  {
    var t := Upper(Bracketed(s));
    UpperKeepsBrackets(Bracketed(s));
    FoundAreDates(t);
    RewritesKeepBrackets(t, Findall(t), iso);
  }

  /** A range without a date (a relative one such as "now-7day to now") is
      only bracketed and upper-cased. */
  lemma ParsedRelativeRange(s: string, iso: string -> string)
    requires '/' !in s
    ensures ParsedDateRange(s, iso) == Upper(Bracketed(s))
  {
    BracketedNoSlash(s);
    UpperNoSlash(Bracketed(s));
    NoDatesUnchanged(Upper(Bracketed(s)), iso);
  }

  lemma BracketedNoSlash(s: string)
    requires '/' !in s
    ensures '/' !in Bracketed(s)
  {
    var pre := if StartsWith(s, "[") then "" else "[";
    var post := if EndsWith(s, "]") then "" else "]";
    assert '/' !in pre && '/' !in post;
    assert '/' !in pre + s;
  }

  lemma UpperNoSlash(b: string)
    requires '/' !in b
    ensures '/' !in Upper(b)
  {
    var t := Upper(b);
    forall i | 0 <= i < |t| ensures t[i] != '/' {
      assert t[i] == UpperChar(b[i]) && b[i] in b;
    }
  }

  /** No match starts at a non-digit. */
  lemma {:induction false} SkipNonDigits(p: string, r: string)
    requires forall k :: 0 <= k < |p| ==> !IsDigit(p[k])
    ensures Findall(p + r) == Findall(r)
    decreases |p|
  {
    if p != [] {
      var t := p + r;
      assert t[0] == p[0];
      assert Group(t, 0).None?;
      assert MatchAt(t, 0).None?;
      assert Findall(t) == Findall(t[1..]);
      assert t[1..] == p[1..] + r;
      assert forall k :: 0 <= k < |p| - 1 ==> p[1..][k] == p[k + 1];
      SkipNonDigits(p[1..], r);
    } else {
      assert p + r == r;
    }
  }

  /** A whole date at the front, not followed by a digit that could
      lengthen a two-digit year, is the first string found. */
  lemma DateInFront(d: string, q: string, sh: Shape)
    requires ShapeAt(d, 0, sh) && Width(sh) == |d|
    requires sh.year == 4 || q == [] || !IsDigit(q[0])
    ensures Findall(d + q) == [d] + Findall(q)
  {
    var t := d + q;
    assert ShapeAt(t, 0, sh) by {
      assert forall k :: 0 <= k < |d| ==> t[k] == d[k];
    }
    MatchAtComplete(t, 0, sh);
    if sh.year == 2 {
      assert !DigitsAt(t, sh.day + sh.month + 2, 4) by {
        if q != [] { assert t[|d|] == q[0]; }
      }
    }
    assert t[..|d|] == d && t[|d|..] == q;
  }

  /** A whole date after text without digits is the next string found. */
  lemma DateAfterText(p: string, d: string, q: string, sh: Shape)
    requires forall k :: 0 <= k < |p| ==> !IsDigit(p[k])
    requires ShapeAt(d, 0, sh) && Width(sh) == |d|
    requires sh.year == 4 || q == [] || !IsDigit(q[0])
    ensures Findall(p + d + q) == [d] + Findall(q)
  {
    assert p + d + q == p + (d + q);
    SkipNonDigits(p, d + q);
    DateInFront(d, q, sh);
  }

  /** A date is replaced at its own place when no '/' comes before it:
      any earlier window would need the date's first '/' among digits. */
  lemma ReplaceAfterSlashless(p: string, d: string, q: string, rep: string, sh: Shape)
    requires '/' !in p
    requires ShapeAt(d, 0, sh)
    ensures ReplaceFirst(p + d + q, d, rep) == p + rep + q
  {
    var t := p + d + q;
    var g := sh.day;
    forall j | 0 <= j < |p|
      ensures !OccursAt(t, d, j)
    {
      assert t[j + g] != '/' by {
        if j + g < |p| {
          assert t[j + g] == p[j + g];
          assert p[j + g] in p;
        } else {
          assert t[j + g] == d[j + g - |p|];
          assert IsDigit(d[j + g - |p|]);
        }
      }
      if j + |d| <= |t| {
        assert t[j..j + |d|][g] == t[j + g];
      }
    }
    assert t[|p|..|p| + |d|] == d;
    IndexIs(t, d, 0, |p|);
    assert t[..|p|] == p && t[|p| + |d|..] == q;
  }

  /** Upper-casing a concatenation upper-cases each part. */
  lemma UpperConcat(a: string, b: string)
    ensures Upper(a + b) == Upper(a) + Upper(b)
  {
    assert forall k :: 0 <= k < |a + b| ==> Upper(a + b)[k] == (Upper(a) + Upper(b))[k];
  }

  /** Text without lower-case letters is its own upper case. */
  lemma UpperNoLower(a: string)
    requires forall k :: 0 <= k < |a| ==> !('a' <= a[k] <= 'z')
    ensures Upper(a) == a
  {
  }

  const DATE1 := "1/1/2001"
  const DATE2 := "31/12/2001"

  lemma TwoDateShapes()
    ensures ShapeAt(DATE1, 0, Shape(1, 1, 4)) && Width(Shape(1, 1, 4)) == |DATE1|
    ensures ShapeAt(DATE2, 0, Shape(2, 2, 4)) && Width(Shape(2, 2, 4)) == |DATE2|
  {
  }

  /** A range with neither bracket gets both. */
  lemma BracketBare(x: string)
    requires x != [] && x[0] != '[' && x[|x| - 1] != ']'
    ensures Bracketed(x) == "[" + x + "]"
  {
    assert x[..1] == [x[0]] && x[|x| - 1..] == [x[|x| - 1]];
  }

  /** Upper-casing a range upper-cases only its middle when the rest has
      no lower-case letter. */
  lemma UpperMiddle(a: string, b: string, c: string)
    requires forall k :: 0 <= k < |a| ==> !('a' <= a[k] <= 'z')
    requires forall k :: 0 <= k < |c| ==> !('a' <= c[k] <= 'z')
    ensures Upper("[" + a + b + c + "]") == "[" + a + Upper(b) + c + "]"
  {
    UpperConcat("[" + a + b, c + "]");
    UpperConcat("[" + a, b);
    UpperNoLower("[" + a);
    UpperNoLower(c + "]");
    assert "[" + a + b + c + "]" == ("[" + a + b) + (c + "]");
  }

  predicate NoDigit(p: string)
  {
    forall k :: 0 <= k < |p| ==> !IsDigit(p[k])
  }

  /** Two whole dates between texts without digits are found in order. */
  lemma FoundTwoDates(p1: string, d1: string, sh1: Shape, p2: string, d2: string, sh2: Shape, p3: string)
    requires NoDigit(p1) && NoDigit(p2) && NoDigit(p3) && p2 != []
    requires ShapeAt(d1, 0, sh1) && Width(sh1) == |d1|
    requires ShapeAt(d2, 0, sh2) && Width(sh2) == |d2|
    ensures Findall(p1 + d1 + p2 + d2 + p3) == [d1, d2]
  {
    assert p1 + d1 + p2 + d2 + p3 == p1 + d1 + (p2 + d2 + p3);
    DateAfterText(p1, d1, p2 + d2 + p3, sh1);
    DateAfterText(p2, d2, p3, sh2);
    SkipNonDigits(p3, []);
    assert p3 + [] == p3;
  }

  /** The two found dates are replaced each at its own place, provided
      the first one's ISO form brings no '/'. */
  lemma RewrittenTwoDates(p1: string, d1: string, sh1: Shape, p2: string, d2: string, sh2: Shape, p3: string,
                          iso: string -> string)
    requires '/' !in p1 && '/' !in p2
    requires ShapeAt(d1, 0, sh1) && ShapeAt(d2, 0, sh2)
    requires '/' !in IsoOf(iso, d1)
    ensures Rewrites(p1 + d1 + p2 + d2 + p3, [d1, d2], iso) == p1 + IsoOf(iso, d1) + p2 + IsoOf(iso, d2) + p3
  {
    var a, b := IsoOf(iso, d1), IsoOf(iso, d2);
    RewritesTwo(p1 + d1 + p2 + d2 + p3, d1, d2, iso);
    FirstOfTwoReplaced(p1, d1, sh1, p2, d2, p3, a);
    SecondOfTwoReplaced(p1, a, p2, d2, sh2, p3, b);
  }

  /** Two dates are replaced one after the other. */
  lemma RewritesTwo(t: string, d1: string, d2: string, iso: string -> string)
    ensures Rewrites(t, [d1, d2], iso) == ReplaceFirst(ReplaceFirst(t, d1, IsoOf(iso, d1)), d2, IsoOf(iso, d2))
  {
    var ms := [d1, d2];
    assert ms[..1] == [d1] && [d1][..0] == [];
    assert Rewrites(t, [], iso) == t;
    assert Rewrites(t, [d1], iso) == ReplaceFirst(t, d1, IsoOf(iso, d1));
  }

  lemma FirstOfTwoReplaced(p1: string, d1: string, sh1: Shape, p2: string, d2: string, p3: string, a: string)
    requires '/' !in p1 && ShapeAt(d1, 0, sh1)
    ensures ReplaceFirst(p1 + d1 + p2 + d2 + p3, d1, a) == p1 + a + (p2 + d2 + p3)
  {
    assert p1 + d1 + p2 + d2 + p3 == p1 + d1 + (p2 + d2 + p3);
    ReplaceAfterSlashless(p1, d1, p2 + d2 + p3, a, sh1);
  }

  lemma SecondOfTwoReplaced(p1: string, a: string, p2: string, d2: string, sh2: Shape, p3: string, b: string)
    requires '/' !in p1 && '/' !in a && '/' !in p2 && ShapeAt(d2, 0, sh2)
    ensures ReplaceFirst(p1 + a + (p2 + d2 + p3), d2, b) == p1 + a + p2 + b + p3
  {
    assert '/' !in p1 + a + p2 by { assert forall c :: c in p1 + a + p2 ==> c in p1 || c in a || c in p2; }
    AppendAssoc(p1 + a, p2 + d2, p3);
    AppendAssoc(p1 + a, p2, d2);
    ReplaceAfterSlashless(p1 + a + p2, d2, p3, b, sh2);
  }

  /** The unbracketed spelling of the two-date example gets both brackets. */
  lemma BareTwoDates()
    ensures Bracketed(DATE1 + " to " + DATE2) == "[" + DATE1 + " to " + DATE2 + "]"
  {
    var s1 := DATE1 + " to " + DATE2;
    assert s1[0] == '1' && s1[|s1| - 1] == '1';
    BracketBare(s1);
  }

  /** The bracketed spelling is kept as it is. */
  lemma BracketedTwoDates()
    ensures Bracketed("[" + DATE1 + " to " + DATE2 + "]") == "[" + DATE1 + " to " + DATE2 + "]"
  {
    var s2 := "[" + DATE1 + " to " + DATE2 + "]";
    assert s2[..1] == "[" && s2[|s2| - 1..] == "]";
  }

  lemma UpperTwoDates()
    ensures Upper("[" + DATE1 + " to " + DATE2 + "]") == "[" + DATE1 + " TO " + DATE2 + "]"
  {
    UpperMiddle(DATE1, " to ", DATE2);
    assert Upper(" to ") == " TO ";
  }

  /** Both spellings of a two-date range give the two ISO dates between
      brackets, provided the converted first date holds no '/'. */
  lemma ParsedTwoDates(s: string, iso: string -> string)
    requires s == DATE1 + " to " + DATE2 || s == "[" + DATE1 + " to " + DATE2 + "]"
    requires '/' !in IsoOf(iso, DATE1)
    ensures ParsedDateRange(s, iso) == "[" + IsoOf(iso, DATE1) + " TO " + IsoOf(iso, DATE2) + "]"
  {
    if s == DATE1 + " to " + DATE2 { BareTwoDates(); } else { BracketedTwoDates(); }
    UpperTwoDates();
    TwoDateShapes();
    FoundTwoDates("[", DATE1, Shape(1, 1, 4), " TO ", DATE2, Shape(2, 2, 4), "]");
    RewrittenTwoDates("[", DATE1, Shape(1, 1, 4), " TO ", DATE2, Shape(2, 2, 4), "]", iso);
  }

  /** One lone date is replaced by its ISO form. */
  lemma LoneDate(iso: string -> string)
    ensures IsoDates(DATE1, iso) == IsoOf(iso, DATE1)
  {
    TwoDateShapes();
    assert DATE1 == "" + DATE1 + "";
    DateAfterText("", DATE1, "", Shape(1, 1, 4));
    assert Findall("") == [];
    ReplaceAfterSlashless("", DATE1, "", IsoOf(iso, DATE1), Shape(1, 1, 4));
  }

  // ---------------------------------------------------------------------
  // _parse_search_kwargs

  /** The CAS metadata fields, searched under the 'CAS.' prefix. */
  const CAS_FIELDS: seq<string> := ["ProductId", "ProductTypeName", "ProductReceivedTime", "ProductTransferStatus",
    "ProductName", "ProductTypeId", "ProductStructure", "ReferenceFileSize", "ReferenceMimeType",
    "ReferenceDatastore", "ReferenceOriginal"]

  /** The Solr field a keyword argument filters on. */
  function FieldName(k: string): string
  {
    if k in CAS_FIELDS then "CAS." + k else k
  }

  /** One keyword filter, field:value. */
  function KwargTerm(k: string, v: string): string
  {
    FieldName(k) + ":" + v
  }

  /** The text of a term before its first ':', the field Solr reads. */
  function Before(s: string, c: char): (r: string)
    ensures c !in r
  {
    if s == [] || s[0] == c then [] else [s[0]] + Before(s[1..], c)
  }

  /** The text of a term after its first ':', the value Solr reads. */
  function After(s: string, c: char): string
  {
    if s == [] then [] else if s[0] == c then s[1..] else After(s[1..], c)
  }

  lemma {:induction false} SplitAtFirst(a: string, c: char, b: string)
    requires c !in a
    ensures Before(a + [c] + b, c) == a && After(a + [c] + b, c) == b
  {
    if a != [] {
      assert (a + [c] + b)[1..] == a[1..] + [c] + b;
      assert a[1..] + [c] + b == (a + [c] + b)[1..];
      assert c !in a[1..] by { assert forall x :: x in a[1..] ==> x in a; }
      SplitAtFirst(a[1..], c, b);
      assert a == [a[0]] + a[1..];
    } else {
      assert a + [c] + b == [c] + b;
    }
  }

  /** A term reads back as its field and value: a CAS field under its
      'CAS.' name, any other key as given. */
  lemma KwargTermReadsBack(k: string, v: string)
    requires ':' !in k
    ensures Before(KwargTerm(k, v), ':') == (if k in CAS_FIELDS then "CAS." + k else k)
    ensures After(KwargTerm(k, v), ':') == v
  {
    assert ':' !in FieldName(k) by {
      if k in CAS_FIELDS { assert "CAS." + k == "CAS." + k; assert forall x :: x in "CAS." + k ==> x in "CAS." || x in k; }
    }
    SplitAtFirst(FieldName(k), ':', v);
  }

  /** The terms of the keyword filters, in their order. */
  function KwargTerms(kwargs: seq<(string, string)>): (r: seq<string>)
    ensures |r| == |kwargs|
    ensures forall i :: 0 <= i < |kwargs| ==> r[i] == KwargTerm(kwargs[i].0, kwargs[i].1)
  {
    if kwargs == [] then [] else [KwargTerm(kwargs[0].0, kwargs[0].1)] + KwargTerms(kwargs[1..])
  }

  /** _parse_search_kwargs: one term per keyword filter, appended in
      iteration order. */
  method ParseSearchKwargs(kwargs: seq<(string, string)>) returns (r: seq<string>)
    ensures r == KwargTerms(kwargs)
  {
    r := [];
    var i := 0;
    while i < |kwargs|
      invariant 0 <= i <= |kwargs|
      invariant |r| == i && forall j :: 0 <= j < i ==> r[j] == KwargTerm(kwargs[j].0, kwargs[j].1)
    {
      var (k, v) := kwargs[i];
      r := r + [KwargTerm(k, v)];
      i := i + 1;
    }
  }

  // ---------------------------------------------------------------------
  // search

  /** The query sent to Solr: the terms joined by spaces, or '*:*'. */
  function QueryOf(parts: seq<string>): string
  {
    if parts == [] then "*:*" else Join(" ", parts)
  }

  lemma {:induction false} JoinStarts(parts: seq<string>)
    requires parts != []
    ensures StartsWith(Join(" ", parts), parts[0])
    ensures |parts| >= 2 ==> ' ' in Join(" ", parts)
  {
    if |parts| >= 2 {
      var j := parts[0] + " " + Join(" ", parts[1..]);
      assert j[..|parts[0]|] == parts[0];
      assert j[|parts[0]|] == ' ';
    }
  }

  /** The query is '*:*' exactly when there is no term, or the one term is
      itself '*:*'. */
  lemma QueryMatchesAll(parts: seq<string>)
    ensures QueryOf(parts) == "*:*" <==> (parts == [] || parts == ["*:*"])
  {
    if parts != [] {
      JoinStarts(parts);
      if |parts| >= 2 { assert ' ' !in "*:*"; }
    }
  }

  /** The terms of one search: text, then the parsed date range, then the
      keyword filters; an empty text or date range sets no term. */
  function SearchTerms(text: string, dateRange: string, kwargs: seq<(string, string)>, iso: string -> string): seq<string>
  {
    (if text != "" then ["text:" + text] else []) +
    (if dateRange != "" then ["StartTime:" + ParsedDateRange(dateRange, iso)] else []) +
    KwargTerms(kwargs)
  }

  /** The terms search puts together, in order: the text, the start time
      range, the keyword filters. */
  method SearchParts(text: string, dateRange: string, kwargs: seq<(string, string)>, iso: string -> string)
    returns (parts: seq<string>)
    ensures parts == SearchTerms(text, dateRange, kwargs, iso)
  {
    var textPart: seq<string> := [];
    if text != "" {
      textPart := ["text:" + text];
    }
    var datePart: seq<string> := [];
    if dateRange != "" {
      var d := ParseDateRange(dateRange, iso);
      datePart := ["StartTime:" + d];
    }
    var kwargPart: seq<string> := [];
    if kwargs != [] {
      kwargPart := ParseSearchKwargs(kwargs);
    } else {
      assert KwargTerms(kwargs) == [];
    }
    parts := textPart + datePart + kwargPart;
  }

  /** search as written: list.extend with the keyword dict adds its keys. */
  function SearchTermsAsWritten(text: string, dateRange: string, kwargs: seq<(string, string)>, iso: string -> string): seq<string>
  {
    (if text != "" then ["text:" + text] else []) +
    (if dateRange != "" then ["StartTime:" + ParsedDateRange(dateRange, iso)] else []) +
    Keys(kwargs)
  }

  function Keys(kwargs: seq<(string, string)>): (r: seq<string>)
    ensures |r| == |kwargs| && forall i :: 0 <= i < |kwargs| ==> r[i] == kwargs[i].0
  {
    if kwargs == [] then [] else [kwargs[0].0] + Keys(kwargs[1..])
  }

  /** As written, a CAS field filter reaches Solr as the bare field name,
      with neither the 'CAS.' prefix nor the value. */
  lemma KwargKeysOnly(iso: string -> string)
    ensures QueryOf(SearchTermsAsWritten("", "", [("ProductName", "x")], iso)) == "ProductName"
    ensures QueryOf(SearchTerms("", "", [("ProductName", "x")], iso)) == "CAS.ProductName:x"
  {
    assert "ProductName" in CAS_FIELDS;
    assert KwargTerms([("ProductName", "x")]) == [KwargTerm("ProductName", "x")];
    assert KwargTerm("ProductName", "x") == "CAS.ProductName:x";
    assert SearchTerms("", "", [("ProductName", "x")], iso) == ["CAS.ProductName:x"];
  }

  /** Without text, date range or filters the query is '*:*'; a text
      leads the query, and a date range leads it when there is no text. */
  lemma SearchQueryShape(text: string, dateRange: string, kwargs: seq<(string, string)>, iso: string -> string)
    ensures var q := QueryOf(SearchTerms(text, dateRange, kwargs, iso));
      (text == "" && dateRange == "" && kwargs == [] ==> q == "*:*") &&
      (text != "" ==> StartsWith(q, "text:" + text)) &&
      (text == "" && dateRange != "" ==> StartsWith(q, "StartTime:" + ParsedDateRange(dateRange, iso)))
  {
    var parts := SearchTerms(text, dateRange, kwargs, iso);
    if parts != [] { JoinStarts(parts); }
  }

  /** What Solr answers a query: the hit count and the documents. */
  datatype SolrResponse = SolrResponse(hits: int, docs: seq<Met>)

  const NO_SOLR := "AttributeError: 'KatSdpSolrClient' object has no attribute '_solr'"

  class KatSdpSolrClient {
    var url: string
    /** Whether connect has opened the index. */
    var connected: bool
    var query: Option<string>
    /** The last answer (_results). */
    var cached: Option<SolrResponse>
    /** results.hits and results.docs. */
    var hits: Option<int>
    var docs: Option<seq<Met>>

    constructor (url: string)
      ensures this.url == url && !connected && query.None? && cached.None? && hits.None? && docs.None?
    {
      this.url := url;
      connected := false;
      query := None;
      cached := None;
      hits := None;
      docs := None;
    }

    /** connect: a new url replaces the old one and drops the last answer;
        without one the index is reopened at the same url. */
    method Connect(newUrl: string)
      modifies this
      ensures connected
      ensures newUrl == "" ==> url == old(url) && cached == old(cached)
      ensures newUrl != "" ==> url == newUrl && cached.None?
      ensures query == old(query) && hits == old(hits) && docs == old(docs)
    {
      if newUrl != "" {
        url := newUrl;
        cached := None;
      }
      connected := true;
    }

    /** search: the query is recorded before the index is asked, so an
        unconnected client records it and then fails. */
    method Search(text: string, dateRange: string, rows: int, kwargs: seq<(string, string)>,
                  iso: string -> string, solr: (string, int) -> SolrResponse) returns (r: Result<()>)
      modifies this
      ensures query == Some(QueryOf(SearchTerms(text, dateRange, kwargs, iso)))
      ensures url == old(url) && connected == old(connected)
      ensures !connected ==> r == Err(NO_SOLR) && cached == old(cached) && hits == old(hits) && docs == old(docs)
      ensures connected ==> (r == Ok(()) && cached == Some(solr(query.value, rows)) &&
                             hits == Some(cached.value.hits) && docs == Some(cached.value.docs))
    {
      var parts := SearchParts(text, dateRange, kwargs, iso);
      var q := QueryOf(parts);
      query := Some(q);
      if !connected {
        r := Err(NO_SOLR);
        return;
      }
      Ask(q, rows, solr);
      r := Ok(());
    }

    /** The index's answer to the recorded query, and its hits and documents. */
    method Ask(q: string, rows: int, solr: (string, int) -> SolrResponse)
      modifies this
      ensures cached == Some(solr(q, rows)) && hits == Some(cached.value.hits) && docs == Some(cached.value.docs)
      ensures url == old(url) && connected == old(connected) && query == old(query)
    {
      var answer := solr(q, rows);
      cached := Some(answer);
      hits := Some(answer.hits);
      docs := Some(answer.docs);
    }
  }
}
