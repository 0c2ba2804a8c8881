// The trawler's view of one observation product (a capture block's RDB
// files, an L0 visibility stream or an L1 flag stream): its key, the state
// machine of its archive record, the discovery of its files and the staging
// of a bounded number of them; the factory that finds the product
// directories and prunes capture blocks whose streams are still present; and
// the uploader's split of the files into one slice per worker.

module ProdHandler {
  import opened Wrappers
  import opened Strs
  import opened FileScan
  import opened Slicing
  import opened TrawlFs

  const MAX_TRANSFERS: nat := 5000
  const CPU_MULTIPLIER: nat := 10

  // ---- directory names (the capture block id pattern is IsCaptureBlockId) ----

  /** ^[0-9]{10}[-_].*l0$ */
  predicate IsL0StreamName(d: string)
  {
    |d| >= 13 && TenDigitHead(d) && (d[10] == '-' || d[10] == '_') && EndsWith(d, "l0")
  }

  /** ^[0-9]{10}[-_].*l1-flags$ */
  predicate IsL1StreamName(d: string)
  {
    |d| >= 19 && TenDigitHead(d) && (d[10] == '-' || d[10] == '_') && EndsWith(d, "l1-flags")
  }

  /** No directory name is of two kinds. */
  lemma NameKindsDisjoint(d: string)
    ensures !(IsCaptureBlockId(d) && IsL0StreamName(d))
    ensures !(IsCaptureBlockId(d) && IsL1StreamName(d))
    ensures !(IsL0StreamName(d) && IsL1StreamName(d))
  {
    assert EndsWith(d, "l0") ==> d[|d| - 1] == '0';
    assert EndsWith(d, "l1-flags") ==> d[|d| - 1] == 's';
  }

  // ---- product kinds and keys ----

  datatype Kind = RdbProduct | L0Product | L1Product

  function ProductType(kind: Kind): string
  {
    match kind
    case RdbProduct => "MeerKATTelescopeProduct"
    case L0Product => "MeerKATVisibilityProduct"
    case L1Product => "MeerKATFlagProduct"
  }

  /** The directory name a key is derived from: os.path.split(path.rstrip('/'))[1]. */
  function ProductName(path: string): (r: string)
    ensures '/' !in r
  {
    Basename(RStrip(path, '/'))
  }

  /** The product key, which is also its product id. */
  function Key(kind: Kind, path: string): (r: string)
    ensures kind == RdbProduct ==> StartsWith(r, ProductName(path)) && EndsWith(r, "-sdp-l0")
    ensures kind == L0Product ==> StartsWith(r, ProductName(path)) && EndsWith(r, "-visibility")
    ensures kind == L1Product ==> r == ProductName(path)
    ensures forall i :: 0 <= i < |ProductName(path)| ==> r[i] == ProductName(path)[i]
  {
    var name := ProductName(path);
    match kind
    case RdbProduct => name + "-sdp-l0"
    case L0Product => name + "-visibility"
    case L1Product => name
  }

  /** The path components os.path.split(os.sep) gives, without the empty ones. */
  function NonEmptyParts(parts: seq<string>): (r: seq<string>)
    ensures forall i :: 0 <= i < |r| ==> r[i] != ""
  {
    if parts == [] then []
    else if parts[0] == "" then NonEmptyParts(parts[1..])
    else [parts[0]] + NonEmptyParts(parts[1..])
  }

  /** bucket_name: None for an empty path, the last non-empty component
      otherwise, and the IndexError of `[][-1]` for a path of slashes only. */
  function BucketName(path: string): (r: Result<Option<string>>)
    ensures path == "" ==> r == Ok(None)
    ensures r.Ok? && r.value.Some? ==> r.value.value != "" && '/' !in r.value.value
  {
    if path == "" then Ok(None)
    else
      var parts := NonEmptyParts(Split(path, '/'));
      if parts == [] then Err("IndexError: list index out of range")
      else
        NoSlashInParts(path);
        assert parts[|parts| - 1] in parts;
        Ok(Some(parts[|parts| - 1]))
  }

  lemma NoSlashInParts(path: string)
    ensures forall x :: x in NonEmptyParts(Split(path, '/')) ==> '/' !in x
  {
    SplitPartsHaveNoSep(path, '/');
    NonEmptyPartsSubset(Split(path, '/'));
  }

  lemma {:induction false} NonEmptyPartsSubset(parts: seq<string>)
    ensures forall x :: x in NonEmptyParts(parts) ==> x in parts
  {
    if parts != [] { NonEmptyPartsSubset(parts[1..]); }
  }

  lemma {:induction false} SplitPartsHaveNoSep(s: string, sep: char)
    ensures forall x :: x in Split(s, sep) ==> sep !in x
    decreases |s|
  {
    if s != [] {
      SplitPartsHaveNoSep(s[1..], sep);
    }
  }

  /** The bucket a product is uploaded to is the name its key is made from:
      for any path with a character other than '/', bucket_name gives the
      directory name the three key functions start with. */
  lemma {:induction false} BucketIsProductName(path: string)
    requires exists i :: 0 <= i < |path| && path[i] != '/'
    ensures BucketName(path) == Ok(Some(ProductName(path)))
    decreases |path|, 1
  {
    if path[|path| - 1] == '/' {
      BucketTrailingSlash(path);
    } else {
      BucketLastChar(path);
    }
  }

  /** A trailing '/' changes neither the bucket nor the product name. */
  lemma {:induction false} BucketTrailingSlash(path: string)
    requires exists i :: 0 <= i < |path| && path[i] != '/'
    requires path[|path| - 1] == '/'
    ensures BucketName(path) == Ok(Some(ProductName(path)))
    decreases |path|, 0
  {
    var n := |path|;
    var init := path[..n - 1];
    assert path == init + ['/'];
    SplitSnoc(init, '/', '/');
    var i :| 0 <= i < |path| && path[i] != '/';
    assert i < n - 1 && init[i] == path[i];
    BucketIsProductName(init);
    NonEmptyPartsSnoc(Split(init, '/'), "");
    SameParts(path, init);
    assert RStrip(path, '/') == RStrip(init, '/');
  }

  /** bucket_name looks only at the non-empty parts of a path. */
  lemma SameParts(a: string, b: string)
    requires a != "" && b != "" && NonEmptyParts(Split(a, '/')) == NonEmptyParts(Split(b, '/'))
    ensures BucketName(a) == BucketName(b)
  {
  }

  /** A path ending in a character other than '/' is named by its last part. */
  lemma BucketLastChar(path: string)
    requires |path| > 0 && path[|path| - 1] != '/'
    ensures BucketName(path) == Ok(Some(ProductName(path)))
  {
    var n := |path|;
    var init := path[..n - 1];
    var c := path[n - 1];
    assert path == init + [c];
    SplitSnoc(init, c, '/');
    var sp := Split(init, '/');
    var last := sp[|sp| - 1] + [c];
    assert Split(path, '/') == sp[..|sp| - 1] + [last];
    NonEmptyPartsSnoc(sp[..|sp| - 1], last);
    assert RStrip(path, '/') == path;
    LastPartIsBasename(path);
  }

  lemma {:induction false} NonEmptyPartsSnoc(parts: seq<string>, x: string)
    ensures NonEmptyParts(parts + [x]) == NonEmptyParts(parts) + (if x == "" then [] else [x])
  {
    if parts != [] {
      assert (parts + [x])[1..] == parts[1..] + [x];
      NonEmptyPartsSnoc(parts[1..], x);
    } else {
      assert parts + [x] == [x];
    }
  }

  /** Splitting one character more only touches the last piece. */
  lemma {:induction false} SplitSnoc(s: string, c: char, sep: char)
    ensures Split(s + [c], sep) == if c == sep then Split(s, sep) + [""]
      else Split(s, sep)[..|Split(s, sep)| - 1] + [Split(s, sep)[|Split(s, sep)| - 1] + [c]]
    decreases |s|
  {
    if s == [] {
      assert s + [c] == [c];
      SplitOne(c, sep);
    } else {
      assert (s + [c])[1..] == s[1..] + [c];
      assert (s + [c])[0] == s[0];
      SplitSnoc(s[1..], c, sep);
      var a := Split(s[1..], sep);
      var b := Split(s[1..] + [c], sep);
      assert b == Snoc(a, c, sep);
      if s[0] == sep {
        assert Split(s, sep) == [""] + a;
        assert Split(s + [c], sep) == [""] + b;
        SnocCons("", a, c, sep);
      } else {
        assert Split(s, sep) == [[s[0]] + a[0]] + a[1..];
        assert Split(s + [c], sep) == [[s[0]] + b[0]] + b[1..];
        SnocHead(s[0], a, c, sep);
      }
      assert Split(s + [c], sep) == Snoc(Split(s, sep), c, sep);
    }
  }

  /** The pieces after one more character `c`. */
  function Snoc(a: seq<string>, c: char, sep: char): seq<string>
    requires |a| >= 1
  {
    if c == sep then a + [""] else a[..|a| - 1] + [a[|a| - 1] + [c]]
  }

  lemma SnocCons(h: string, a: seq<string>, c: char, sep: char)
    requires |a| >= 1
    ensures [h] + Snoc(a, c, sep) == Snoc([h] + a, c, sep)
  {
    if c != sep {
      assert ([h] + a)[..|a|] == [h] + a[..|a| - 1];
    }
  }

  lemma SnocHead(x: char, a: seq<string>, c: char, sep: char)
    requires |a| >= 1
    ensures var b := Snoc(a, c, sep);
      (|b| >= 1 && [[x] + b[0]] + b[1..] == Snoc([[x] + a[0]] + a[1..], c, sep))
  {
    var b := Snoc(a, c, sep);
    var n := |a|;
    if c == sep {
      assert b[0] == a[0] && b[1..] == a[1..] + [""];
    } else if n == 1 {
      assert b == [a[0] + [c]];
      AppendAssoc([x], a[0], [c]);
    } else {
      assert b[0] == a[0] && b[1..] == a[1..n - 1] + [a[n - 1] + [c]];
      assert ([[x] + a[0]] + a[1..])[..n - 1] == [[x] + a[0]] + a[1..n - 1];
      assert ([[x] + a[0]] + a[1..])[n - 1] == a[n - 1];
    }
  }

  lemma SplitOne(c: char, sep: char)
    ensures Split([c], sep) == if c == sep then ["", ""] else [[c]]
  {
    assert [c][1..] == [];
    assert Split([], sep) == [""];
    if c != sep {
      assert [c] + "" == [c];
    }
  }

  /** The last piece of a split is what follows the last separator. */
  lemma {:induction false} LastPartIsBasename(s: string)
    ensures Split(s, '/')[|Split(s, '/')| - 1] == s[AfterLast(s, '/')..]
    decreases |s|
  {
    if s != [] {
      var init := s[..|s| - 1];
      var c := s[|s| - 1];
      assert s == init + [c];
      SplitSnoc(init, c, '/');
      if c != '/' {
        LastPartIsBasename(init);
        assert AfterLast(s, '/') == AfterLast(init, '/');
        assert s[AfterLast(s, '/')..] == init[AfterLast(init, '/')..] + [c];
      }
    }
  }

  // ---- the state machine ----

  const TRANSFERRING := "TRANSFERRING"
  const RECEIVED := "RECEIVED"
  const RESTAGING := "RESTAGING"
  const RESTAGED := "RESTAGED"
  const CREATED := "CREATED"
  const ARCHIVED := "ARCHIVED"
  const RECREATED := "RECREATED"
  const FAILED := "FAILED"

  datatype Transition = TransferDone | ProductDetected | TransferStarted | Failed

  /** The product's record in the metadata store: absent, or present with
      its CAS.ProductTransferStatus if it has one. */
  datatype Stored = Absent | Present(status: Option<string>)

  /** get_state: the status, or None when there is no record or no status. */
  function StateOf(s: Stored): Option<string>
  {
    if s.Present? then s.status else None
  }

  /** `not current_state`: no status, or an empty one. */
  predicate NoState(cur: Option<string>)
  {
    cur.None? || cur.value == ""
  }

  predicate Is(cur: Option<string>, status: string)
  {
    cur == Some(status)
  }

  const NO_RDB_PREFIX := "ValueError: min() arg is an empty sequence"

  /** re.match('^.*[0-9]{10}_[^.]*', f) succeeds for some file match f. */
  predicate HasRdbPrefix(matches: seq<string>)
  {
    exists i, p :: 0 <= i < |matches| && 0 <= p < |matches[i]| && BlockAt(matches[i], p)
  }

  /** update_state calls metadata_when_created: on detection from no state
      or ARCHIVED, and on a started transfer from no state. */
  predicate CallsWhenCreated(t: Transition, cur: Option<string>)
  {
    (t == ProductDetected && (NoState(cur) || Is(cur, ARCHIVED))) ||
    (t == TransferStarted && NoState(cur))
  }

  /** An RDB product's metadata_when_created starts with rdb_file_prefix,
      whose min() over no prefixed match raises ValueError. */
  predicate PrefixFails(kind: Kind, matches: seq<string>)
  {
    kind == RdbProduct && !HasRdbPrefix(matches)
  }

  /** update_state on the record, given the product's file matches.  When
      metadata_when_created is called and raises, the status is not set.
      set_product_status creates the core record when there is none;
      TRANSFER_DONE then writes the record back, which fails when there is
      none, and an RDB product writes it back as RECEIVED whatever the status
      was. */
  function Next(kind: Kind, t: Transition, s: Stored, matches: seq<string>): Result<Stored>
  {
    var cur := StateOf(s);
    if CallsWhenCreated(t, cur) && PrefixFails(kind, matches) then Err(NO_RDB_PREFIX)
    else match t
    case TransferDone =>
      var s1 := if Is(cur, TRANSFERRING) then Present(Some(RECEIVED))
                else if Is(cur, RESTAGING) then Present(Some(RESTAGED))
                else s;
      if s1.Absent? then Err("SolrException: Document is missing mandatory uniqueKey field: id")
      else if kind == RdbProduct then Ok(Present(Some(RECEIVED)))
      else Ok(s1)
    case ProductDetected =>
      if NoState(cur) then Ok(Present(Some(CREATED)))
      else if Is(cur, ARCHIVED) then Ok(Present(Some(RECREATED)))
      else Ok(s)
    case TransferStarted =>
      if NoState(cur) then Ok(Present(Some(TRANSFERRING)))
      else if Is(cur, CREATED) then Ok(Present(Some(TRANSFERRING)))
      else if Is(cur, RECREATED) || Is(cur, ARCHIVED) then Ok(Present(Some(RESTAGING)))
      else Ok(s)
    case Failed => Ok(Present(Some(FAILED)))
  }

  /** TRANSFER_STARTED: from no state an RDB product without a prefixed file
      raises ValueError; otherwise no state and CREATED give TRANSFERRING,
      RECREATED and ARCHIVED give RESTAGING, and every other state is kept. */
  lemma TransferStartedStates(kind: Kind, s: Stored, matches: seq<string>)
    ensures var r := Next(kind, TransferStarted, s, matches);
      (r.Err? <==> NoState(StateOf(s)) && PrefixFails(kind, matches)) &&
      (r.Err? ==> r.error == NO_RDB_PREFIX)
    ensures var r := Next(kind, TransferStarted, s, matches);
      r.Ok? ==> (NoState(StateOf(s)) || StateOf(s) in {Some(CREATED), Some(TRANSFERRING)} <==>
        StateOf(r.value) == Some(TRANSFERRING))
    ensures var r := Next(kind, TransferStarted, s, matches);
      r.Ok? ==> (StateOf(s) in {Some(RECREATED), Some(ARCHIVED), Some(RESTAGING)} <==>
        StateOf(r.value) == Some(RESTAGING))
    ensures !NoState(StateOf(s)) && StateOf(s) !in {Some(CREATED), Some(RECREATED), Some(ARCHIVED)} ==>
      Next(kind, TransferStarted, s, matches) == Ok(s)
  {
  }

  /** TRANSFER_DONE on a stream product: TRANSFERRING gives RECEIVED,
      RESTAGING gives RESTAGED, any other state is kept; only a missing
      record is an error. */
  lemma TransferDoneStreamStates(kind: Kind, s: Stored, matches: seq<string>)
    requires kind != RdbProduct
    ensures Next(kind, TransferDone, s, matches).Err? <==> s.Absent?
    ensures s.Present? && StateOf(s) == Some(TRANSFERRING) ==> Next(kind, TransferDone, s, matches) == Ok(Present(Some(RECEIVED)))
    ensures s.Present? && StateOf(s) == Some(RESTAGING) ==> Next(kind, TransferDone, s, matches) == Ok(Present(Some(RESTAGED)))
    ensures s.Present? && StateOf(s) != Some(TRANSFERRING) && StateOf(s) != Some(RESTAGING) ==>
      Next(kind, TransferDone, s, matches) == Ok(s)
  {
  }

  /** TRANSFER_DONE on an RDB product always ends RECEIVED, even from
      RESTAGING or FAILED. */
  lemma TransferDoneRdbStates(s: Stored, matches: seq<string>)
    ensures Next(RdbProduct, TransferDone, s, matches).Err? <==> s.Absent?
    ensures s.Present? ==> Next(RdbProduct, TransferDone, s, matches) == Ok(Present(Some(RECEIVED)))
  {
  }

  /** PRODUCT_DETECTED: from no state or ARCHIVED an RDB product without a
      prefixed file raises ValueError; otherwise no state gives CREATED,
      ARCHIVED gives RECREATED and any other state is unchanged; detecting
      twice is detecting once. */
  lemma ProductDetectedStates(kind: Kind, s: Stored, matches: seq<string>)
    ensures var r := Next(kind, ProductDetected, s, matches);
      (r.Err? <==> (NoState(StateOf(s)) || StateOf(s) == Some(ARCHIVED)) && PrefixFails(kind, matches)) &&
      (r.Err? ==> r.error == NO_RDB_PREFIX)
    ensures var r := Next(kind, ProductDetected, s, matches);
      r.Ok? ==>
        (NoState(StateOf(s)) ==> r.value == Present(Some(CREATED))) &&
        (StateOf(s) == Some(ARCHIVED) ==> r.value == Present(Some(RECREATED))) &&
        (!NoState(StateOf(s)) && StateOf(s) != Some(ARCHIVED) ==> r.value == s)
    ensures var r := Next(kind, ProductDetected, s, matches);
      r.Ok? ==> Next(kind, ProductDetected, r.value, matches) == r
  {
  }

  /** FAILED sets FAILED from any state, and FAILED is kept by detection and
      by a started transfer. */
  lemma FailedStates(kind: Kind, s: Stored, matches: seq<string>)
    ensures Next(kind, Failed, s, matches) == Ok(Present(Some(FAILED)))
    ensures Next(kind, ProductDetected, Present(Some(FAILED)), matches) == Ok(Present(Some(FAILED)))
    ensures Next(kind, TransferStarted, Present(Some(FAILED)), matches) == Ok(Present(Some(FAILED)))
  {
  }

  /** Runs several transitions, stopping at the first error. */
  function Run(kind: Kind, ts: seq<Transition>, s: Stored, matches: seq<string>): Result<Stored>
    decreases |ts|
  {
    if ts == [] then Ok(s)
    else match Next(kind, ts[0], s, matches)
      case Err(e) => Err(e)
      case Ok(s1) => Run(kind, ts[1..], s1, matches)
  }

  /** A new product that is detected, starts its transfer and finishes it is
      RECEIVED, whatever its kind, unless it is an RDB product without a
      prefixed file, whose detection raises ValueError. */
  lemma NewProductLifecycle(kind: Kind, matches: seq<string>)
    ensures Run(kind, [ProductDetected, TransferStarted, TransferDone], Absent, matches)
      == if PrefixFails(kind, matches) then Err(NO_RDB_PREFIX) else Ok(Present(Some(RECEIVED)))
  {
    assert [ProductDetected, TransferStarted, TransferDone][1..] == [TransferStarted, TransferDone];
    assert [TransferStarted, TransferDone][1..] == [TransferDone];
  }

  /** An archived product brought back goes RECREATED, RESTAGING and then
      RESTAGED for a stream product but RECEIVED for an RDB product, whose
      transfer completion always writes RECEIVED; an RDB product without a
      prefixed file raises ValueError on detection instead. */
  lemma RestagedLifecycle(kind: Kind, matches: seq<string>)
    ensures Run(kind, [ProductDetected, TransferStarted, TransferDone], Present(Some(ARCHIVED)), matches)
      == if PrefixFails(kind, matches) then Err(NO_RDB_PREFIX)
         else Ok(Present(Some(if kind == RdbProduct then RECEIVED else RESTAGED)))
  {
    assert [ProductDetected, TransferStarted, TransferDone][1..] == [TransferStarted, TransferDone];
    assert [TransferStarted, TransferDone][1..] == [TransferDone];
    assert ARCHIVED != "" && RECREATED != "" && RECREATED != CREATED && RESTAGING != TRANSFERRING;
    if !PrefixFails(kind, matches) {
      assert Next(kind, ProductDetected, Present(Some(ARCHIVED)), matches) == Ok(Present(Some(RECREATED)));
      assert Next(kind, TransferStarted, Present(Some(RECREATED)), matches) == Ok(Present(Some(RESTAGING)));
    }
  }

  // ---- staging ----

  /** Python's xs[:n] for any integer n. */
  function Take(xs: seq<string>, n: int): (r: seq<string>)
    ensures n >= 0 ==> r == xs[..if n < |xs| then n else |xs|]
    ensures n < 0 ==> r == xs[..if |xs| + n > 0 then |xs| + n else 0]
  {
    if n >= 0 then xs[..if n < |xs| then n else |xs|]
    else xs[..if |xs| + n > 0 then |xs| + n else 0]
  }

  /** stage_for_transfer's result: the files staged and the remaining limit. */
  function Stage(matches: seq<string>, limit: int): (seq<string>, int)
  {
    if limit == 0 then ([], 0)
    else
      var staged := Take(matches, limit);
      (staged, limit - |staged|)
  }

  /** For a non-negative limit the first min(limit, |matches|) files are
      staged and the remaining limit is what is left of it; a zero limit
      stages nothing. */
  lemma StageBounds(matches: seq<string>, limit: int)
    requires limit >= 0
    ensures var (staged, rest) := Stage(matches, limit);
      |staged| == (if limit < |matches| then limit else |matches|) &&
      staged == matches[..|staged|] &&
      rest == limit - |staged| && rest >= 0 &&
      (rest == 0 <==> limit <= |matches|) &&
      (limit == 0 ==> staged == [])
  {
  }

  // ---- discovery ----

  function FileExt(kind: Kind): string
  {
    if kind == RdbProduct then ".rdb" else ".npy"
  }

  function WriteExt(kind: Kind): string
  {
    if kind == RdbProduct then ".writing.rdb" else ".writing.npy"
  }

  const COMPLETE_TOKEN := "complete"

  /** A directory's files are all transferred once the complete token is in
      it and no other matching file is left: completed_and_transferred after
      a fresh discovery holds exactly then. */
  lemma CompletedIffTokenAndNoMatch(entries: seq<WalkEntry>, kind: Kind)
    ensures var sc := Classify(entries, FileExt(kind), WriteExt(kind), COMPLETE_TOKEN);
      (sc.complete && sc.matches == []) <==>
      (exists i :: 0 <= i < |entries| && Judge(entries[i].name, FileExt(kind), WriteExt(kind), COMPLETE_TOKEN) == Token) &&
      (forall i :: 0 <= i < |entries| ==> Judge(entries[i].name, FileExt(kind), WriteExt(kind), COMPLETE_TOKEN) != Match)
  {
    var sc := Classify(entries, FileExt(kind), WriteExt(kind), COMPLETE_TOKEN);
    ClassifyComplete(entries, FileExt(kind), WriteExt(kind), COMPLETE_TOKEN);
    if sc.matches == [] {
      forall i | 0 <= i < |entries|
        ensures Judge(entries[i].name, FileExt(kind), WriteExt(kind), COMPLETE_TOKEN) != Match
      {
        ClassifyMatches(entries, FileExt(kind), WriteExt(kind), COMPLETE_TOKEN, PathJoin(entries[i].root, entries[i].name));
      }
    } else {
      ClassifyMatches(entries, FileExt(kind), WriteExt(kind), COMPLETE_TOKEN, sc.matches[0]);
    }
  }

  class Product {
    const kind: Kind
    const path: string
    const key: string
    var fileMatches: seq<string>
    var staged: seq<string>
    var complete: Option<bool>
    /** The product's record in the metadata store. */
    var stored: Stored
    /** Whether discovery moved the directory to the failed directory. */
    var movedToFailed: bool

    constructor (kind: Kind, path: string, stored: Stored)
      ensures this.kind == kind && this.path == path && key == Key(kind, path)
      ensures fileMatches == [] && staged == [] && complete == None
      ensures this.stored == stored && !movedToFailed
    {
      this.kind := kind;
      this.path := path;
      key := Key(kind, path);
      fileMatches := [];
      staged := [];
      complete := None;
      this.stored := stored;
      movedToFailed := false;
    }

    function State(): Option<string>
      reads this
    {
      StateOf(stored)
    }

    /** update_state; an error leaves the record as it was. */
    method UpdateState(t: Transition) returns (r: Result<()>)
      modifies this
      ensures Next(kind, t, old(stored), fileMatches).Ok? ==> r == Ok(()) && stored == Next(kind, t, old(stored), fileMatches).value
      ensures Next(kind, t, old(stored), fileMatches).Err? ==> r.Err? && stored == old(stored)
      ensures fileMatches == old(fileMatches) && staged == old(staged) && complete == old(complete)
      ensures movedToFailed == old(movedToFailed)
    {
      // the new status is worked out first and written to the record once
      var cur, next := StateOf(stored), stored;
      if CallsWhenCreated(t, cur) && PrefixFails(kind, fileMatches) {
        // rdb_file_prefix raised inside metadata_when_created
        return Err(NO_RDB_PREFIX);
      }
      match t {
        case TransferDone =>
          if Is(cur, TRANSFERRING) {
            next := Present(Some(RECEIVED));
          } else if Is(cur, RESTAGING) {
            next := Present(Some(RESTAGED));
          }
          if next.Absent? {
            return Err("SolrException: Document is missing mandatory uniqueKey field: id");
          }
          if kind == RdbProduct {
            next := Present(Some(RECEIVED));
          }
        case ProductDetected =>
          if NoState(cur) {
            next := Present(Some(CREATED));
          } else if Is(cur, ARCHIVED) {
            next := Present(Some(RECREATED));
          }
        case TransferStarted =>
          if NoState(cur) || Is(cur, CREATED) {
            next := Present(Some(TRANSFERRING));
          } else if Is(cur, RECREATED) || Is(cur, ARCHIVED) {
            next := Present(Some(RESTAGING));
          }
        case Failed =>
          next := Present(Some(FAILED));
      }
      stored := next;
      r := Ok(());
    }

    /** _discover_trawl_files over the files os.walk reports.  A failed token
        moves the directory away and marks the product FAILED; otherwise the
        walk loop collects the product's files. */
    method DiscoverTrawlFiles(entries: seq<WalkEntry>, hasFailedToken: bool)
      modifies this
      ensures hasFailedToken ==>
        (movedToFailed && stored == Present(Some(FAILED)) && fileMatches == old(fileMatches) && complete == old(complete))
      ensures !hasFailedToken ==>
        (stored == old(stored) && movedToFailed == old(movedToFailed) &&
         fileMatches == old(fileMatches) + Classify(entries, FileExt(kind), WriteExt(kind), COMPLETE_TOKEN).matches &&
         complete == Some(Classify(entries, FileExt(kind), WriteExt(kind), COMPLETE_TOKEN).complete))
      ensures staged == old(staged)
    {
      if hasFailedToken {
        movedToFailed := true;
        var _ := UpdateState(Failed);
        return;
      }
      CollectTrawlFiles(entries, FileExt(kind), WriteExt(kind));
    }

    /** The walk loop of _discover_trawl_files: every file not being written
        and with the wanted extension is appended to the matches, in walk
        order, and complete records whether the token was seen. */
    method CollectTrawlFiles(entries: seq<WalkEntry>, fileExt: string, writeExt: string)
      modifies this
      ensures fileMatches == old(fileMatches) + Classify(entries, fileExt, writeExt, COMPLETE_TOKEN).matches
      ensures complete == Some(Classify(entries, fileExt, writeExt, COMPLETE_TOKEN).complete)
      ensures stored == old(stored) && movedToFailed == old(movedToFailed) && staged == old(staged)
    {
      // the matches and the token flag are kept in locals and written back
      // once the walk is over
      var matches, seen := fileMatches, false;
      ghost var sc := Scan([], false);
      var i := 0;
      while i < |entries|
        invariant 0 <= i <= |entries|
        invariant sc == Classify(entries[..i], fileExt, writeExt, COMPLETE_TOKEN)
        invariant matches == fileMatches + sc.matches && seen == sc.complete
        invariant fileMatches == old(fileMatches) && stored == old(stored)
        invariant movedToFailed == old(movedToFailed) && staged == old(staged)
      {
        var e := entries[i];
        ClassifyPrefixStep(entries, i, fileExt, writeExt, COMPLETE_TOKEN);
        // the if/elif chain on the name's ending; a file still being written is skipped
        match Judge(e.name, fileExt, writeExt, COMPLETE_TOKEN) {
          case Match =>
            var path := PathJoin(e.root, e.name);
            AppendAssoc(fileMatches, sc.matches, [path]);
            matches := matches + [path];
          case Token =>
            seen := true;
          case _ =>
        }
        sc := Step(sc, e, fileExt, writeExt, COMPLETE_TOKEN);
        i := i + 1;
      }
      assert entries[..i] == entries;
      fileMatches, complete := matches, Some(seen);
    }

    /** completed_and_transferred. */
    function CompletedAndTransferred(): bool
      reads this
    {
      complete == Some(true) && fileMatches == []
    }

    /** stage_for_transfer: stages up to `limit` of the matches and returns
        what is left of the limit. */
    method StageForTransfer(limit: int) returns (rest: int)
      modifies this
      ensures (staged, rest) == Stage(fileMatches, limit)
      ensures fileMatches == old(fileMatches) && complete == old(complete) && stored == old(stored)
      ensures movedToFailed == old(movedToFailed)
    {
      if limit == 0 {
        staged := [];
        return 0;
      }
      staged := Take(fileMatches, limit);
      rest := limit - |staged|;
    }

    function IsStaged(): bool
      reads this
    {
      staged != []
    }
  }

  /** A fresh product's discovery followed by completed_and_transferred
      answers whether the token was found with nothing left to send. */
  method DiscoverFresh(kind: Kind, path: string, entries: seq<WalkEntry>) returns (done: bool)
    ensures done <==>
      (exists i :: 0 <= i < |entries| && Judge(entries[i].name, FileExt(kind), WriteExt(kind), COMPLETE_TOKEN) == Token) &&
      (forall i :: 0 <= i < |entries| ==> Judge(entries[i].name, FileExt(kind), WriteExt(kind), COMPLETE_TOKEN) != Match)
  {
    var p := new Product(kind, path, Absent);
    p.DiscoverTrawlFiles(entries, false);
    CompletedIffTokenAndNoMatch(entries, kind);
    done := p.CompletedAndTransferred();
  }

  // ---- the product factory ----

  /** _list_dir_helper: the sub-directories whose names match, joined to the
      trawl directory. */
  function ListDir(trawlDir: string, subDirs: seq<string>, kind: Kind): (r: seq<string>)
    ensures |r| <= |subDirs|
  {
    if subDirs == [] then []
    else
      var rest := ListDir(trawlDir, subDirs[..|subDirs| - 1], kind);
      var d := subDirs[|subDirs| - 1];
      if NameMatches(d, kind) then rest + [PathJoin(trawlDir, d)] else rest
  }

  predicate NameMatches(d: string, kind: Kind)
  {
    match kind
    case RdbProduct => IsCaptureBlockId(d)
    case L0Product => IsL0StreamName(d)
    case L1Product => IsL1StreamName(d)
  }

  /** A listed directory is the join of a matching sub-directory name. */
  lemma {:induction false} ListDirMembers(trawlDir: string, subDirs: seq<string>, kind: Kind, p: string)
    ensures p in ListDir(trawlDir, subDirs, kind) <==>
      exists d :: d in subDirs && NameMatches(d, kind) && p == PathJoin(trawlDir, d)
  {
    if subDirs != [] {
      var init := subDirs[..|subDirs| - 1];
      ListDirMembers(trawlDir, init, kind, p);
      assert subDirs == init + [subDirs[|subDirs| - 1]];
    }
  }

  /** The capture block and the two stream lists are disjoint. */
  lemma ListsDisjoint(trawlDir: string, subDirs: seq<string>, k1: Kind, k2: Kind, p: string)
    requires k1 != k2
    requires forall d :: d in subDirs ==> !StartsWith(d, "/")
    ensures !(p in ListDir(trawlDir, subDirs, k1) && p in ListDir(trawlDir, subDirs, k2))
  {
    ListDirMembers(trawlDir, subDirs, k1, p);
    ListDirMembers(trawlDir, subDirs, k2, p);
    if p in ListDir(trawlDir, subDirs, k1) && p in ListDir(trawlDir, subDirs, k2) {
      var d1 :| d1 in subDirs && NameMatches(d1, k1) && p == PathJoin(trawlDir, d1);
      var d2 :| d2 in subDirs && NameMatches(d2, k2) && p == PathJoin(trawlDir, d2);
      JoinInjective(trawlDir, d1, d2);
      NameKindsDisjoint(d1);
    }
  }

  /** A capture block is pruned when some stream directory starts with it. */
  predicate HasStream(block: string, streams: seq<string>)
  {
    exists s :: s in streams && StartsWith(s, block)
  }

  /** The capture blocks that have no stream directory left, in order. */
  function Keep(blocks: seq<string>, streams: seq<string>): (r: seq<string>)
    ensures |r| <= |blocks|
  {
    if blocks == [] then []
    else
      var rest := Keep(blocks[..|blocks| - 1], streams);
      var b := blocks[|blocks| - 1];
      if HasStream(b, streams) then rest else rest + [b]
  }

  /** Keep drops exactly the blocks that have a stream. */
  lemma {:induction false} KeepMembers(blocks: seq<string>, streams: seq<string>, b: string)
    ensures b in Keep(blocks, streams) <==> b in blocks && !HasStream(b, streams)
    decreases |blocks|
  {
    if blocks != [] {
      var init := blocks[..|blocks| - 1];
      KeepMembers(init, streams, b);
      assert blocks == init + [blocks[|blocks| - 1]];
    }
  }

  /** list.remove(x): drops the first occurrence. */
  function RemoveFirst(xs: seq<string>, x: string): (r: seq<string>)
    ensures x in xs ==> |r| == |xs| - 1
    ensures x !in xs ==> r == xs
  {
    if xs == [] then []
    else if xs[0] == x then xs[1..]
    else [xs[0]] + RemoveFirst(xs[1..], x)
  }

  lemma {:induction false} RemoveFirstAfter(k: seq<string>, x: string, rest: seq<string>)
    requires x !in k
    ensures RemoveFirst(k + [x] + rest, x) == k + rest
  {
    if k == [] {
      assert k + [x] + rest == [x] + rest;
    } else {
      var s := k + [x] + rest;
      assert s[0] == k[0] != x;
      assert s[1..] == k[1..] + [x] + rest;
      assert RemoveFirst(s, x) == [k[0]] + RemoveFirst(s[1..], x);
      RemoveFirstAfter(k[1..], x, rest);
      HeadSplit(k, rest);
    }
  }

  lemma HeadSplit(k: seq<string>, rest: seq<string>)
    requires k != []
    ensures k + rest == [k[0]] + (k[1..] + rest)
  {
    assert (k + rest)[0] == k[0];
    assert (k + rest)[1..] == k[1..] + rest;
  }

  /** The inner loop of prune_rdb_products: whether some stream directory
      starts with the capture block. */
  method FindStream(block: string, streams: seq<string>) returns (found: bool)
    ensures found <==> HasStream(block, streams)
  {
    found := false;
    var j := 0;
    while j < |streams| && !found
      invariant 0 <= j <= |streams|
      invariant found <==> exists s :: s in streams[..j] && StartsWith(s, block)
    {
      assert streams[..j + 1] == streams[..j] + [streams[j]];
      if StartsWith(streams[j], block) {
        found := true;
      }
      j := j + 1;
    }
    assert !found ==> streams[..j] == streams;
  }

  /** One more capture block: kept when it has no stream, and otherwise the
      first occurrence removed from the rest of the list is that block. */
  lemma KeepSnoc(copy: seq<string>, i: nat, streams: seq<string>)
    requires i < |copy|
    ensures copy[i..] == [copy[i]] + copy[i + 1..]
    ensures !HasStream(copy[i], streams) ==>
      Keep(copy[..i + 1], streams) == Keep(copy[..i], streams) + [copy[i]]
    ensures HasStream(copy[i], streams) ==>
      Keep(copy[..i + 1], streams) == Keep(copy[..i], streams) &&
      RemoveFirst(Keep(copy[..i], streams) + copy[i..], copy[i]) == Keep(copy[..i], streams) + copy[i + 1..]
  {
    assert copy[..i + 1][..i] == copy[..i];
    assert copy[i..] == [copy[i]] + copy[i + 1..];
    if HasStream(copy[i], streams) {
      KeepMembers(copy[..i], streams, copy[i]);
      RemoveFirstAfter(Keep(copy[..i], streams), copy[i], copy[i + 1..]);
      assert Keep(copy[..i], streams) + [copy[i]] + copy[i + 1..] == Keep(copy[..i], streams) + copy[i..];
    }
  }

  /** One step of the pruning loop: removing a block that has a stream, or
      keeping one that has none, extends the kept prefix by that block. */
  lemma PruneStep(copy: seq<string>, i: nat, streams: seq<string>, found: bool, bs: seq<string>)
    requires i < |copy| && bs == Keep(copy[..i], streams) + copy[i..]
    requires found <==> HasStream(copy[i], streams)
    ensures (if found then RemoveFirst(bs, copy[i]) else bs) == Keep(copy[..i + 1], streams) + copy[i + 1..]
    ensures i + 1 - |Keep(copy[..i + 1], streams)| == i - |Keep(copy[..i], streams)| + (if found then 1 else 0)
  {
    KeepSnoc(copy, i, streams);
  }

  class ProductFactory {
    var blockDirs: seq<string>
    var l0Dirs: seq<string>
    var l1Dirs: seq<string>

    /** The directories below the trawl directory, by kind; `subDirs` are the
        names os.listdir reports that are directories. */
    constructor (trawlDir: string, subDirs: seq<string>)
      ensures blockDirs == ListDir(trawlDir, subDirs, RdbProduct)
      ensures l0Dirs == ListDir(trawlDir, subDirs, L0Product)
      ensures l1Dirs == ListDir(trawlDir, subDirs, L1Product)
    {
      blockDirs := ListDir(trawlDir, subDirs, RdbProduct);
      l0Dirs := ListDir(trawlDir, subDirs, L0Product);
      l1Dirs := ListDir(trawlDir, subDirs, L1Product);
    }

    /** One pass of prune_rdb_products: every capture block that some stream
        directory starts with is removed from the list in place. */
    method PrunePass(streams: seq<string>) returns (pruned: nat)
      modifies this
      ensures blockDirs == Keep(old(blockDirs), streams)
      ensures pruned == |old(blockDirs)| - |blockDirs|
      ensures l0Dirs == old(l0Dirs) && l1Dirs == old(l1Dirs)
    {
      var copy := blockDirs;
      pruned := 0;
      var i := 0;
      assert copy[..0] == [] && copy[0..] == copy;
      while i < |copy|
        invariant 0 <= i <= |copy|
        invariant blockDirs == Keep(copy[..i], streams) + copy[i..]
        invariant pruned == i - |Keep(copy[..i], streams)|
        invariant l0Dirs == old(l0Dirs) && l1Dirs == old(l1Dirs)
      {
        var b := copy[i];
        var found := FindStream(b, streams);
        PruneStep(copy, i, streams, found, blockDirs);
        if found {
          blockDirs := RemoveFirst(blockDirs, b);
          pruned := pruned + 1;
        }
        i := i + 1;
      }
      assert copy[..i] == copy;
    }

    /** prune_rdb_products: removes the capture blocks with an L0 stream
        directory, then those with an L1 stream directory, and returns how
        many were removed. */
    method PruneRdbProducts() returns (count: nat)
      modifies this
      ensures blockDirs == Keep(Keep(old(blockDirs), old(l0Dirs)), old(l1Dirs))
      ensures count == |old(blockDirs)| - |blockDirs|
      ensures l0Dirs == old(l0Dirs) && l1Dirs == old(l1Dirs)
    {
      var a := PrunePass(l0Dirs);
      var b := PrunePass(l1Dirs);
      count := a + b;
    }
  }

  /** Exactly the capture blocks with a stream directory of either level are
      pruned, and the order of the rest is kept. */
  lemma PrunedExactly(blocks: seq<string>, l0: seq<string>, l1: seq<string>, b: string)
    ensures b in Keep(Keep(blocks, l0), l1) <==> b in blocks && !HasStream(b, l0) && !HasStream(b, l1)
  {
    KeepMembers(blocks, l0, b);
    KeepMembers(Keep(blocks, l0), l1, b);
  }

  /** The shape of the factory test: two capture blocks, one of which still
      has an L0 and an L1 stream directory, leave one RDB product. */
  lemma PruneTwoBlocks()
    ensures var blocks := ["/t/1234567890", "/t/1234567891"];
      var l0 := ["/t/1234567890-sdp-l0"];
      var l1 := ["/t/1234567890-sdp-l1-flags"];
      Keep(Keep(blocks, l0), l1) == ["/t/1234567891"]
  {
    var blocks := ["/t/1234567890", "/t/1234567891"];
    var l0 := ["/t/1234567890-sdp-l0"];
    assert StartsWith(l0[0], blocks[0]);
    assert !StartsWith(l0[0], blocks[1]) by { assert l0[0][12] != blocks[1][12]; }
    assert blocks[..1] == [blocks[0]];
    assert Keep(blocks, l0) == ["/t/1234567891"];
    var l1 := ["/t/1234567890-sdp-l1-flags"];
    assert !StartsWith(l1[0], blocks[1]) by { assert l1[0][12] != blocks[1][12]; }
    assert Keep(["/t/1234567891"], l1) == Keep([], l1) + ["/t/1234567891"];
  }

  // ---- the uploader ----

  /** The number of worker processes upload() starts. */
  function Workers(files: nat, cpus: nat): nat
  {
    var most := CPU_MULTIPLIER * cpus;
    if files < most then files else most
  }

  /** upload()'s split of the files into one slice per worker; a process
      pool with no workers raises ValueError, so an empty upload list (or no
      CPUs) is an error. */
  function UploadSlices(files: seq<string>, cpus: nat): (r: Result<seq<seq<string>>>)
    ensures r.Err? <==> Workers(|files|, cpus) == 0
  {
    var w := Workers(|files|, cpus);
    if w == 0 then Err("ValueError: max_workers must be greater than 0")
    else Ok(Slices(files, w))
  }

  /** Every file goes to exactly one worker, and no worker gets nothing. */
  lemma UploadSlicesPartition(files: seq<string>, cpus: nat, j: nat, k: nat)
    requires NoDup(files)
    requires UploadSlices(files, cpus).Ok?
    ensures |UploadSlices(files, cpus).value| == Workers(|files|, cpus) <= |files|
    ensures j < |files| && k < Workers(|files|, cpus) ==>
      (files[j] in UploadSlices(files, cpus).value[k] <==> k == j % Workers(|files|, cpus))
    ensures k < Workers(|files|, cpus) ==> UploadSlices(files, cpus).value[k] != []
  {
    var w := Workers(|files|, cpus);
    if j < |files| && k < w {
      ExactlyOneSlice(files, w, j, k);
    }
    if k < w {
      StrideAt(files, k, w, 0);
    }
  }

  class Uploader {
    const trawlDir: string
    const uploadFiles: seq<string>

    /** At most MAX_TRANSFERS files are uploaded in one round. */
    constructor (trawlDir: string, files: seq<string>)
      ensures this.trawlDir == trawlDir
      ensures uploadFiles == files[..if |files| < MAX_TRANSFERS then |files| else MAX_TRANSFERS]
    {
      this.trawlDir := trawlDir;
      uploadFiles := files[..if |files| < MAX_TRANSFERS then |files| else MAX_TRANSFERS];
    }

    /** The slices handed to the workers. */
    function Plan(cpus: nat): (r: Result<seq<seq<string>>>)
      reads this
    {
      UploadSlices(uploadFiles, cpus)
    }

    /** Uploader.transfer_files: the same transfer as the trawler's, but it
        reports no URLs. */
    static method TransferFiles(fs: FileSystem, trawlDir: string, fileList: seq<string>, sent: map<string, int>)
      returns (r: Result<seq<string>>)
      modifies fs
      ensures fs.files == TransferAll(old(fs.files), fileList, trawlDir, sent).files
      ensures TransferAll(old(fs.files), fileList, trawlDir, sent).failure.None? <==> r == Ok([])
    {
      var t := fs.TransferFiles(trawlDir, fileList, sent);
      if t.Ok? {
        r := Ok([]);
      } else {
        r := t;
      }
    }
  }
}
