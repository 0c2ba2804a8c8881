// The local staging area seen by the trawlers: a map from file paths to their
// contents (a file's size is the length of its contents).  Uploading a file
// to S3 is an oracle: `sent` gives the byte count boto reports for each file
// it was asked to upload.

module TrawlFs {
  import opened Wrappers
  import opened Strs

  const FAILED_TOKEN := "failed"

  /** The files after set_failed_token: the token is written only when the
      directory has none; a missing message is written as "". */
  function WithFailedToken(files: map<string, string>, dir: string, msg: Option<string>): (r: map<string, string>)
    ensures PathJoin(dir, FAILED_TOKEN) in r
    ensures PathJoin(dir, FAILED_TOKEN) in files ==> r == files
    ensures PathJoin(dir, FAILED_TOKEN) !in files ==>
      r == files[PathJoin(dir, FAILED_TOKEN) := OptionOr(msg, "")]
  {
    var token := PathJoin(dir, FAILED_TOKEN);
    if token in files then files else files[token := OptionOr(msg, "")]
  }

  /** The files after shutil.rmtree(dir): everything below the directory goes. */
  function WithoutTree(files: map<string, string>, dir: string): (r: map<string, string>)
    ensures forall p :: p in r <==> p in files && !StartsWith(p, dir + "/")
    ensures forall p :: p in r ==> r[p] == files[p]
  {
    map p | p in files && !StartsWith(p, dir + "/") :: files[p]
  }

  /** The bucket and key os.path.relpath(f, trawl_dir).split('/', 1) gives,
      or the error the unpacking raises when there is no '/'. */
  function BucketAndKey(f: string, trawlDir: string): (r: Result<(string, string)>)
    ensures r.Ok? ==> r.value.0 + "/" + r.value.1 == RelPath(f, trawlDir) && '/' !in r.value.0
  {
    var rel := RelPath(f, trawlDir);
    var i := FirstIndex(rel, '/');
    if i == |rel| then Err("ValueError: not enough values to unpack")
    else
      assert rel == rel[..i] + "/" + rel[i + 1..];
      Ok((rel[..i], rel[i + 1..]))
  }

  /** The index of the first `c` in `s`, or |s| when there is none. */
  function FirstIndex(s: string, c: char): (i: nat)
    ensures i <= |s| && (i < |s| ==> s[i] == c)
    ensures forall j :: 0 <= j < i ==> s[j] != c
  {
    if s == [] then 0 else if s[0] == c then 0 else 1 + FirstIndex(s[1..], c)
  }

  /** The state of transfer_files after some files: the files left, the s3
      URLs of the files transferred and whether an exception stopped it. */
  datatype Transfer = Transfer(files: map<string, string>, urls: seq<string>, failure: Option<string>)

  /** One file of transfer_files: its size must be readable, its relative
      path must have a bucket part and its upload must return; the file is
      deleted, and its URL recorded, only when the uploaded byte count equals
      its size. */
  function TransferOne(t: Transfer, f: string, trawlDir: string, sent: map<string, int>): Transfer
  {
    if t.failure.Some? then t
    else
      match BucketAndKey(f, trawlDir)
      case Err(e) => Transfer(t.files, t.urls, Some(e))
      case Ok(bk) =>
        if f !in t.files then Transfer(t.files, t.urls, Some("OSError: No such file: " + f))
        else if f !in sent then Transfer(t.files, t.urls, Some("S3ResponseError: upload of " + f))
        else if sent[f] == |t.files[f]| then
          Transfer(t.files - {f}, t.urls + [Join("/", ["s3:/", bk.0, bk.1])], None)
        else t
  }

  function TransferAll(files: map<string, string>, fileList: seq<string>, trawlDir: string, sent: map<string, int>): Transfer
  {
    if fileList == [] then Transfer(files, [], None)
    else TransferOne(TransferAll(files, fileList[..|fileList| - 1], trawlDir, sent), fileList[|fileList| - 1], trawlDir, sent)
  }

  /** One more file of the list is one more TransferOne. */
  lemma TransferAllSnoc(files: map<string, string>, fileList: seq<string>, i: nat, trawlDir: string, sent: map<string, int>)
    requires i < |fileList|
    ensures TransferAll(files, fileList[..i + 1], trawlDir, sent) ==
      TransferOne(TransferAll(files, fileList[..i], trawlDir, sent), fileList[i], trawlDir, sent)
  {
    assert fileList[..i + 1][..i] == fileList[..i];
  }

  /** Deletion only after a complete upload: every file that transfer_files
      removes was in the list and its uploaded byte count equals its size,
      and no file outside the list is touched. */
  lemma {:induction false} DeletedOnlyWhenComplete(files: map<string, string>, fileList: seq<string>, trawlDir: string, sent: map<string, int>, f: string)
    requires f in files
    ensures f !in TransferAll(files, fileList, trawlDir, sent).files ==>
      f in fileList && f in sent && sent[f] == |files[f]|
    ensures f in TransferAll(files, fileList, trawlDir, sent).files ==>
      TransferAll(files, fileList, trawlDir, sent).files[f] == files[f]
  {
    if fileList != [] {
      var init := fileList[..|fileList| - 1];
      DeletedOnlyWhenComplete(files, init, trawlDir, sent, f);
      var t := TransferAll(files, init, trawlDir, sent);
      TransferOneDeletes(t, fileList[|fileList| - 1], f, trawlDir, sent);
      if f !in t.files {
        assert f in init;
      }
    }
  }

  /** One step deletes at most its own file, and only once all of it was
      sent; what it keeps is unchanged. */
  lemma TransferOneDeletes(t: Transfer, f: string, g: string, trawlDir: string, sent: map<string, int>)
    ensures g in TransferOne(t, f, trawlDir, sent).files ==> g in t.files && TransferOne(t, f, trawlDir, sent).files[g] == t.files[g]
    ensures g in t.files && g !in TransferOne(t, f, trawlDir, sent).files ==> g == f && f in sent && sent[f] == |t.files[f]|
  {
  }

  /** A file of the list is deleted exactly when its upload was complete,
      provided no exception stopped the transfer. */
  lemma {:induction false} DeletedWhenComplete(files: map<string, string>, fileList: seq<string>, trawlDir: string, sent: map<string, int>, j: nat)
    requires j < |fileList| && NoDup(fileList)
    requires TransferAll(files, fileList, trawlDir, sent).failure.None?
    ensures fileList[j] in files && fileList[j] in sent
    ensures fileList[j] !in TransferAll(files, fileList, trawlDir, sent).files <==> sent[fileList[j]] == |files[fileList[j]]|
  {
    var init := fileList[..|fileList| - 1];
    var last := fileList[|fileList| - 1];
    var t := TransferAll(files, init, trawlDir, sent);
    assert t.failure.None?;
    if j < |init| {
      NoDupInit(fileList);
      DeletedWhenComplete(files, init, trawlDir, sent, j);
      assert init[j] == fileList[j];
      TransferOneOther(t, last, fileList[j], trawlDir, sent);
    } else {
      assert last !in init by { NoDupInit(fileList); }
      UntouchedOutsideList(files, init, trawlDir, sent, last);
      TransferOneSelf(t, last, trawlDir, sent);
    }
  }

  lemma NoDupInit(s: seq<string>)
    requires NoDup(s) && s != []
    ensures NoDup(s[..|s| - 1]) && s[|s| - 1] !in s[..|s| - 1]
  {
    var init := s[..|s| - 1];
    forall a, b | 0 <= a < b < |init| ensures init[a] != init[b] {
      assert init[a] == s[a] && init[b] == s[b];
    }
  }

  /** One step leaves every other file as it was. */
  lemma TransferOneOther(t: Transfer, f: string, g: string, trawlDir: string, sent: map<string, int>)
    requires f != g
    ensures g in TransferOne(t, f, trawlDir, sent).files <==> g in t.files
    ensures g in t.files ==> TransferOne(t, f, trawlDir, sent).files[g] == t.files[g]
  {
  }

  /** A step that raises nothing found its file and an upload for it, and
      deletes the file exactly when the whole of it was sent. */
  lemma TransferOneSelf(t: Transfer, f: string, trawlDir: string, sent: map<string, int>)
    requires t.failure.None? && TransferOne(t, f, trawlDir, sent).failure.None?
    ensures f in t.files && f in sent
    ensures f !in TransferOne(t, f, trawlDir, sent).files <==> sent[f] == |t.files[f]|
  {
  }

  /** Files not in the list keep their contents. */
  lemma {:induction false} UntouchedOutsideList(files: map<string, string>, fileList: seq<string>, trawlDir: string, sent: map<string, int>, f: string)
    requires f !in fileList
    ensures f in TransferAll(files, fileList, trawlDir, sent).files <==> f in files
    ensures f in files ==> TransferAll(files, fileList, trawlDir, sent).files[f] == files[f]
  {
    if fileList != [] {
      var init := fileList[..|fileList| - 1];
      UntouchedOutsideList(files, init, trawlDir, sent, f);
      TransferOneOther(TransferAll(files, init, trawlDir, sent), fileList[|fileList| - 1], f, trawlDir, sent);
    }
  }

  /** transfer_files never brings back a file: whatever it leaves was there before. */
  lemma {:induction false} TransferAllNoRevive(files: map<string, string>, fileList: seq<string>, trawlDir: string, sent: map<string, int>, g: string)
    requires g in TransferAll(files, fileList, trawlDir, sent).files
    ensures g in files
  {
    if fileList != [] {
      var init := fileList[..|fileList| - 1];
      TransferOneDeletes(TransferAll(files, init, trawlDir, sent), fileList[|fileList| - 1], g, trawlDir, sent);
      TransferAllNoRevive(files, init, trawlDir, sent, g);
    }
  }

  /** A parallel upload: one slice per worker, each sent by transfer_files.
      The slices hold disjoint files, so the staging area ends as if they ran
      one after the other; the URLs of the workers that finish are gathered slice
      by slice, and the first
      exception, in slice order, is the one p.result() raises. */
  function TransferSlices(files: map<string, string>, slices: seq<seq<string>>, trawlDir: string, sent: map<string, int>): Transfer
  {
    if slices == [] then Transfer(files, [], None)
    else
      var prev := TransferSlices(files, slices[..|slices| - 1], trawlDir, sent);
      var t := TransferAll(prev.files, slices[|slices| - 1], trawlDir, sent);
      Transfer(t.files, prev.urls + (if t.failure.None? then t.urls else []), if prev.failure.Some? then prev.failure else t.failure)
  }

  lemma TransferSlicesStep(files: map<string, string>, slices: seq<seq<string>>, i: nat, trawlDir: string, sent: map<string, int>)
    requires i < |slices|
    ensures var prev := TransferSlices(files, slices[..i], trawlDir, sent);
      var t := TransferAll(prev.files, slices[i], trawlDir, sent);
      TransferSlices(files, slices[..i + 1], trawlDir, sent) ==
        Transfer(t.files, prev.urls + (if t.failure.None? then t.urls else []), if prev.failure.Some? then prev.failure else t.failure)
  {
    assert slices[..i + 1][..i] == slices[..i];
  }

  /** A parallel upload deletes a file only when some slice held it and the
      store reported its whole size, and every file it keeps is unchanged. */
  lemma {:induction false} SlicesDeleteOnlyComplete(files: map<string, string>, slices: seq<seq<string>>, trawlDir: string, sent: map<string, int>, f: string)
    requires f in files
    ensures var r := TransferSlices(files, slices, trawlDir, sent).files;
      (f !in r ==> (exists k :: 0 <= k < |slices| && f in slices[k]) && f in sent && sent[f] == |files[f]|) &&
      (f in r ==> r[f] == files[f])
  {
    if slices != [] {
      var init := slices[..|slices| - 1];
      var last := slices[|slices| - 1];
      SlicesDeleteOnlyComplete(files, init, trawlDir, sent, f);
      var prev := TransferSlices(files, init, trawlDir, sent);
      var r := TransferAll(prev.files, last, trawlDir, sent).files;
      if f in prev.files {
        DeletedOnlyWhenComplete(prev.files, last, trawlDir, sent, f);
        if f !in r {
          assert f in slices[|slices| - 1];
        }
      } else {
        if f in r {
          TransferAllNoRevive(prev.files, last, trawlDir, sent, f);
        }
        var k :| 0 <= k < |init| && f in init[k];
        assert init[k] == slices[k];
      }
    }
  }

  /** The total size of the listed files that exist, as
      sum(os.path.getsize(f) for f in fs if os.path.isfile(f)). */
  function UploadSize(staged: seq<string>, files: map<string, string>): (r: nat)
  {
    if staged == [] then 0
    else (if staged[0] in files then |files[staged[0]]| else 0) + UploadSize(staged[1..], files)
  }

  /** Staged files that are gone contribute nothing, and the size of a list
      is the sum of the sizes of its parts. */
  lemma {:induction false} UploadSizeAppend(a: seq<string>, b: seq<string>, files: map<string, string>)
    ensures UploadSize(a + b, files) == UploadSize(a, files) + UploadSize(b, files)
  {
    if a != [] {
      assert (a + b)[1..] == a[1..] + b;
      UploadSizeAppend(a[1..], b, files);
    } else {
      assert a + b == b;
    }
  }

  lemma {:induction false} UploadSizeOfMissing(staged: seq<string>, files: map<string, string>)
    requires forall i :: 0 <= i < |staged| ==> staged[i] !in files
    ensures UploadSize(staged, files) == 0
  {
    if staged != [] {
      UploadSizeOfMissing(staged[1..], files);
    }
  }

  /** The staging area, updated in place by the trawlers. */
  class FileSystem {
    var files: map<string, string>

    constructor (initial: map<string, string>)
      ensures files == initial
    {
      files := initial;
    }

    /** set_failed_token: never overwrites an existing token. */
    method SetFailedToken(dir: string, msg: Option<string>)
      modifies this
      ensures files == WithFailedToken(old(files), dir, msg)
    {
      var token := PathJoin(dir, FAILED_TOKEN);
      if token !in files {
        files := files[token := OptionOr(msg, "")];
      }
    }

    /** shutil.rmtree. */
    method RemoveTree(dir: string)
      modifies this
      ensures files == WithoutTree(old(files), dir)
    {
      files := WithoutTree(files, dir);
    }

    /** transfer_files: uploads the files in order, deleting each one whose
        upload returned its full size, and returns the s3 URLs transferred;
        an exception ends the loop with the deletions made so far. */
    method TransferFiles(trawlDir: string, fileList: seq<string>, sent: map<string, int>) returns (r: Result<seq<string>>)
      modifies this
      ensures files == TransferAll(old(files), fileList, trawlDir, sent).files
      ensures var t := TransferAll(old(files), fileList, trawlDir, sent);
        if t.failure.Some? then r == Err(t.failure.value) else r == Ok(t.urls)
    {
      var urls: seq<string> := [];
      var failure: Option<string> := None;
      var i := 0;
      while i < |fileList| && failure.None?
        invariant 0 <= i <= |fileList|
        invariant failure.Some? ==> i > 0
        invariant TransferAll(old(files), fileList[..i], trawlDir, sent) == Transfer(files, urls, failure)
      {
        TransferAllSnoc(old(files), fileList, i, trawlDir, sent);
        var f := fileList[i];
        var bk := BucketAndKey(f, trawlDir);
        if bk.Err? {
          failure := Some(bk.error);
        } else if f !in files {
          failure := Some("OSError: No such file: " + f);
        } else if f !in sent {
          failure := Some("S3ResponseError: upload of " + f);
        } else if sent[f] == |files[f]| {
          files := files - {f};
          urls := urls + [Join("/", ["s3:/", bk.value.0, bk.value.1])];
        }
        i := i + 1;
      }
      if failure.Some? {
        AfterFailure(old(files), fileList, i, trawlDir, sent);
        r := Err(failure.value);
      } else {
        assert fileList[..i] == fileList;
        r := Ok(urls);
      }
    }
  }

  /** Once an exception has stopped transfer_files, later files change nothing. */
  lemma {:induction false} AfterFailure(files: map<string, string>, fileList: seq<string>, i: nat, trawlDir: string, sent: map<string, int>)
    requires 0 < i <= |fileList|
    requires TransferAll(files, fileList[..i], trawlDir, sent).failure.Some?
    ensures TransferAll(files, fileList, trawlDir, sent) == TransferAll(files, fileList[..i], trawlDir, sent)
    decreases |fileList| - i
  {
    if i < |fileList| {
      assert fileList[..i + 1][..i] == fileList[..i];
      AfterFailure(files, fileList, i + 1, trawlDir, sent);
    } else {
      assert fileList[..i] == fileList;
    }
  }
}
