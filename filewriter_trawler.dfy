// The file writer's trawler: every capture stream directory (named
// ^[0-9]{10}_.*$) below the trawl directory is described by its .npy files,
// its complete token and the two RDB files of its capture block.  The RDB
// pair of a finished stream with no .npy file left is sent first, then at most
// MAX_TRANSFER .npy files are split over the upload workers.  The .npy files
// are stored without their 128-byte header, under their key without the
// extension.
//
// The recursive glob of each directory is an oracle (`globs`), as is the byte
// count boto reports for each upload (`sent`).

module FilewriterTrawler {
  import opened Wrappers
  import opened Strs
  import opened TrawlFs
  import opened Slicing
  import VisTrawler

  const MAX_TRANSFER: nat := 1000
  const CPU_MULTIPLIER: nat := 10
  const NPY_HEADER: nat := 128

  // ---- get_cbid_dict ----

  /** The end of the last run of ten digits: re.match('^.*[0-9]{10}', s).group()
      is s[..e] for the largest such e. */
  function LastTenDigits(s: string, e: nat): (r: Option<nat>)
    requires e <= |s|
    ensures r.Some? ==> r.value <= e && DigitsEndAt(s, r.value)
    ensures r.Some? ==> forall k :: r.value < k <= e ==> !DigitsEndAt(s, k)
    ensures r.None? ==> forall k :: k <= e ==> !DigitsEndAt(s, k)
  {
    if e < 10 then None
    else if DigitsEndAt(s, e) then Some(e)
    else LastTenDigits(s, e - 1)
  }

  /** Ten digits end just before position k. */
  predicate DigitsEndAt(s: string, k: int)
  {
    10 <= k <= |s| && AllDigits(s[k - 10..k])
  }

  /** The capture block directory of a stream directory. */
  function RdbDir(cbidDir: string): (r: Option<string>)
    ensures r.Some? ==> StartsWith(cbidDir, r.value)
  {
    match LastTenDigits(cbidDir, |cbidDir|)
    case None => None
    case Some(e) => Some(cbidDir[..e])
  }

  /** A stream directory below its capture block directory has that directory
      as its RDB directory. */
  lemma RdbDirOfStream(trawlDir: string, cbid: string, stream: string)
    requires |cbid| == 10 && AllDigits(cbid)
    requires forall j :: 0 <= j < |stream| ==> !IsDigit(stream[j])
    ensures RdbDir(trawlDir + "/" + cbid + stream) == Some(trawlDir + "/" + cbid)
  {
    var s := trawlDir + "/" + cbid + stream;
    var e := |trawlDir| + 1 + 10;
    assert s[e - 10..e] == cbid;
    forall k | e < k <= |s| ensures !DigitsEndAt(s, k) {
      assert s[k - 10..k][9] == s[k - 1] == stream[k - 1 - e];
    }
    LastTenDigitsFrom(s, |s|, e);
    assert s[..e] == trawlDir + "/" + cbid;
  }

  lemma {:induction false} LastTenDigitsFrom(s: string, n: nat, e: nat)
    requires e <= n <= |s| && DigitsEndAt(s, e)
    requires forall k :: e < k <= n ==> !DigitsEndAt(s, k)
    ensures LastTenDigits(s, n) == Some(e)
    decreases n
  {
    if n > e {
      LastTenDigitsFrom(s, n - 1, e);
    }
  }

  /** The details get_cbid_dict gathers for one stream directory. */
  datatype CbidDict = CbidDict(cbid: string, npyUploads: seq<string>, npyCount: nat,
                               complete: Option<string>, rdbLite: Option<string>, rdbFull: Option<string>)

  /** One RDB file of the capture block, if it exists. */
  function RdbFile(files: map<string, string>, rdbDir: string, cbidDir: string, suffix: string): (r: Option<string>)
    ensures r.Some? ==> r.value in files && r.value == PathJoin(rdbDir, Basename(cbidDir) + suffix)
    ensures r.None? <==> PathJoin(rdbDir, Basename(cbidDir) + suffix) !in files
  {
    var f := PathJoin(rdbDir, Basename(cbidDir) + suffix);
    if f in files then Some(f) else None
  }

  /** get_cbid_dict; the regex finding the capture block directory raises
      AttributeError when the directory name has no ten digits. */
  function GetCbidDict(files: map<string, string>, trawlDir: string, cbidDir: string, npys: seq<string>): (r: Result<CbidDict>)
    ensures r.Err? <==> RdbDir(cbidDir).None?
  {
    match RdbDir(cbidDir)
    case None => Err("AttributeError: 'NoneType' object has no attribute 'group'")
    case Some(rdbDir) =>
      var token := PathJoin(cbidDir, "complete");
      Ok(CbidDict(RelPath(cbidDir, trawlDir), npys, |npys|,
                  if token in files then Some(token) else None,
                  RdbFile(files, rdbDir, cbidDir, ".rdb"),
                  RdbFile(files, rdbDir, cbidDir, ".full.rdb")))
  }

  /** The details of a directory with a capture block id: its id relative
      to the trawl directory, its npy files and their count, the completion
      token when present, and its two RDB files. */
  lemma CbidDictFields(files: map<string, string>, trawlDir: string, cbidDir: string, npys: seq<string>)
    requires RdbDir(cbidDir).Some?
    ensures var r := GetCbidDict(files, trawlDir, cbidDir, npys);
      r.Ok? && r.value.npyCount == |r.value.npyUploads| && r.value.npyUploads == npys &&
      r.value.cbid == RelPath(cbidDir, trawlDir) &&
      (r.value.complete.Some? <==> PathJoin(cbidDir, "complete") in files) &&
      (r.value.complete.Some? ==> r.value.complete.value == PathJoin(cbidDir, "complete")) &&
      r.value.rdbLite == RdbFile(files, RdbDir(cbidDir).value, cbidDir, ".rdb") &&
      r.value.rdbFull == RdbFile(files, RdbDir(cbidDir).value, cbidDir, ".full.rdb")
  {
  }

  function GlobOf(globs: map<string, seq<string>>, dir: string): seq<string>
  {
    if dir in globs then globs[dir] else []
  }

  /** The details of the stream directories, in order; the first one whose
      name has no capture block id raises. */
  function Details(files: map<string, string>, trawlDir: string, dirs: seq<string>, globs: map<string, seq<string>>): (r: Result<seq<CbidDict>>)
    ensures r.Ok? ==> |r.value| == |dirs|
  {
    if dirs == [] then Ok([])
    else
      match GetCbidDict(files, trawlDir, dirs[0], GlobOf(globs, dirs[0]))
      case Err(e) => Err(e)
      case Ok(c) =>
        match Details(files, trawlDir, dirs[1..], globs)
        case Err(e) => Err(e)
        case Ok(cs) => Ok([c] + cs)
  }

  /** Each directory's details are its get_cbid_dict, and the pass raises
      exactly when some directory has no capture block id. */
  lemma DetailsSpec(files: map<string, string>, trawlDir: string, dirs: seq<string>, globs: map<string, seq<string>>)
    ensures var r := Details(files, trawlDir, dirs, globs);
      (r.Ok? ==> forall i :: 0 <= i < |dirs| ==> GetCbidDict(files, trawlDir, dirs[i], GlobOf(globs, dirs[i])) == Ok(r.value[i])) &&
      (r.Err? <==> exists i :: 0 <= i < |dirs| && RdbDir(dirs[i]).None?)
  {
    DetailsValues(files, trawlDir, dirs, globs);
    DetailsFails(files, trawlDir, dirs, globs);
  }

  lemma {:induction false} DetailsValues(files: map<string, string>, trawlDir: string, dirs: seq<string>, globs: map<string, seq<string>>)
    ensures var r := Details(files, trawlDir, dirs, globs);
      r.Ok? ==> forall i :: 0 <= i < |dirs| ==> GetCbidDict(files, trawlDir, dirs[i], GlobOf(globs, dirs[i])) == Ok(r.value[i])
    decreases |dirs|
  {
    var r := Details(files, trawlDir, dirs, globs);
    if dirs != [] && r.Ok? {
      var rest := dirs[1..];
      DetailsValues(files, trawlDir, rest, globs);
      var h := GetCbidDict(files, trawlDir, dirs[0], GlobOf(globs, dirs[0]));
      var t := Details(files, trawlDir, rest, globs);
      assert h.Ok? && t.Ok? && r.value == [h.value] + t.value;
      forall i | 0 < i < |dirs| ensures GetCbidDict(files, trawlDir, dirs[i], GlobOf(globs, dirs[i])) == Ok(r.value[i]) {
        assert GetCbidDict(files, trawlDir, rest[i - 1], GlobOf(globs, rest[i - 1])) == Ok(t.value[i - 1]);
        assert dirs[i] == rest[i - 1] && r.value[i] == t.value[i - 1];
      }
    }
  }

  lemma {:induction false} DetailsFails(files: map<string, string>, trawlDir: string, dirs: seq<string>, globs: map<string, seq<string>>)
    ensures Details(files, trawlDir, dirs, globs).Err? <==> exists i :: 0 <= i < |dirs| && RdbDir(dirs[i]).None?
    decreases |dirs|
  {
    if dirs != [] {
      DetailsFails(files, trawlDir, dirs[1..], globs);
      SomeNoIdSplit(dirs);
    }
  }

  lemma SomeNoIdSplit(dirs: seq<string>)
    requires dirs != []
    ensures (exists i :: 0 <= i < |dirs| && RdbDir(dirs[i]).None?) <==>
      RdbDir(dirs[0]).None? || exists i :: 0 <= i < |dirs[1..]| && RdbDir(dirs[1..][i]).None?
  {
    var rest := dirs[1..];
    forall i | 0 < i < |dirs| ensures dirs[i] == rest[i - 1] {}
    forall i | 0 <= i < |rest| ensures rest[i] == dirs[i + 1] {}
  }

  // ---- gen_upload_manifest ----

  function Flatten(cs: seq<CbidDict>): (r: seq<string>)
  {
    if cs == [] then [] else Flatten(cs[..|cs| - 1]) + cs[|cs| - 1].npyUploads
  }

  function Head(xs: seq<string>, n: nat): (r: seq<string>)
  {
    if |xs| <= n then xs else xs[..n]
  }

  /** The .npy files of the streams, in order, then upload_list[0:MAX_TRANSFER];
      the limit parameter has no effect. */
  method GenUploadManifest(uploads: seq<CbidDict>, limit: int) returns (r: seq<string>)
    ensures r == Head(Flatten(uploads), MAX_TRANSFER)
  {
    var uploadList: seq<string> := [];
    var i := 0;
    while i < |uploads|
      invariant 0 <= i <= |uploads|
      invariant uploadList == Flatten(uploads[..i])
    {
      assert uploads[..i + 1][..i] == uploads[..i];
      uploadList := uploadList + uploads[i].npyUploads;
      i := i + 1;
    }
    assert uploads[..i] == uploads;
    r := Head(uploadList, MAX_TRANSFER);
  }

  /** The manifest holds at most MAX_TRANSFER files and is a prefix of all
      the .npy files; when there are no more than that, it holds all of them. */
  lemma ManifestBounds(uploads: seq<CbidDict>)
    ensures |Head(Flatten(uploads), MAX_TRANSFER)| <= MAX_TRANSFER
    ensures Head(Flatten(uploads), MAX_TRANSFER) <= Flatten(uploads)
    ensures |Flatten(uploads)| <= MAX_TRANSFER ==> Head(Flatten(uploads), MAX_TRANSFER) == Flatten(uploads)
  {
  }

  /** Every file of the concatenation comes from one of the streams, and
      every stream's files are in it. */
  lemma {:induction false} FlattenMembers(cs: seq<CbidDict>, x: string)
    ensures x in Flatten(cs) <==> exists i :: 0 <= i < |cs| && x in cs[i].npyUploads
  {
    if cs != [] {
      var init := cs[..|cs| - 1];
      FlattenMembers(init, x);
      if x in Flatten(init) {
        var i :| 0 <= i < |init| && x in init[i].npyUploads;
        assert cs[i] == init[i];
      }
      forall i | 0 <= i < |init| ensures cs[i] == init[i] { }
    }
  }

  // ---- transfer_files ----

  /** The objects written to S3, as (bucket, key), and the files left. */
  datatype Upload = Upload(files: map<string, string>, keys: seq<(string, string)>, failure: Option<string>)

  /** One file of transfer_files: a .npy file is stored without its header
      under its key without the extension, and deleted when the stored byte
      count is its size less 128; any other file is stored whole and deleted
      when the count equals its size. */
  function UploadOne(u: Upload, f: string, trawlDir: string, sent: map<string, int>): Upload
  {
    if u.failure.Some? then u
    else
      match BucketAndKey(f, trawlDir)
      case Err(e) => Upload(u.files, u.keys, Some(e))
      case Ok(bk) =>
        if f !in u.files then Upload(u.files, u.keys, Some("OSError: No such file: " + f))
        else if f !in sent then Upload(u.files, u.keys, Some("S3ResponseError: upload of " + f))
        else Upload(if sent[f] == Expected(f, |u.files[f]|) then u.files - {f} else u.files,
                    u.keys + [(bk.0, StoredKey(f, bk.1))], None)
  }

  /** The key a file is stored under: a .npy file loses its extension. */
  function StoredKey(f: string, key: string): string
  {
    if SplitExt(f).1 == ".npy" then SplitExt(key).0 else key
  }

  function UploadAll(files: map<string, string>, fileList: seq<string>, trawlDir: string, sent: map<string, int>): Upload
  {
    if fileList == [] then Upload(files, [], None)
    else UploadOne(UploadAll(files, fileList[..|fileList| - 1], trawlDir, sent), fileList[|fileList| - 1], trawlDir, sent)
  }

  /** The byte count that makes a file count as uploaded. */
  function Expected(f: string, size: nat): int
  {
    if SplitExt(f).1 == ".npy" then size - NPY_HEADER else size
  }

  /** A file is deleted only when it is in the list and its stored byte count
      is the one its kind expects; files not deleted keep their contents. */
  lemma {:induction false} UploadDeletesOnlyComplete(files: map<string, string>, fileList: seq<string>, trawlDir: string, sent: map<string, int>, f: string)
    requires f in files
    ensures f !in UploadAll(files, fileList, trawlDir, sent).files ==>
      f in fileList && f in sent && sent[f] == Expected(f, |files[f]|)
    ensures f in UploadAll(files, fileList, trawlDir, sent).files ==>
      UploadAll(files, fileList, trawlDir, sent).files[f] == files[f]
  {
    if fileList != [] {
      var init := fileList[..|fileList| - 1];
      var last := fileList[|fileList| - 1];
      UploadDeletesOnlyComplete(files, init, trawlDir, sent, f);
      var u := UploadAll(files, init, trawlDir, sent);
      if f !in u.files {
        assert f in init;
        UploadOneNoRevive(u, last, trawlDir, sent, f);
      } else {
        UploadOneDeletes(u, last, trawlDir, sent, f);
      }
    }
  }

  /** One upload deletes at most its own file, and only a complete one. */
  lemma UploadOneDeletes(u: Upload, g: string, trawlDir: string, sent: map<string, int>, f: string)
    requires f in u.files
    ensures f !in UploadOne(u, g, trawlDir, sent).files ==> f == g && f in sent && sent[f] == Expected(f, |u.files[f]|)
    ensures f in UploadOne(u, g, trawlDir, sent).files ==> UploadOne(u, g, trawlDir, sent).files[f] == u.files[f]
  {
  }

  lemma UploadOneNoRevive(u: Upload, g: string, trawlDir: string, sent: map<string, int>, f: string)
    requires f !in u.files
    ensures f !in UploadOne(u, g, trawlDir, sent).files
  {
  }

  /** Without a failure, every listed file (listed once) is deleted exactly
      when its stored byte count is the one its kind expects. */
  lemma {:induction false} UploadDeletesComplete(files: map<string, string>, fileList: seq<string>, trawlDir: string, sent: map<string, int>, j: nat)
    requires j < |fileList| && NoDup(fileList)
    requires UploadAll(files, fileList, trawlDir, sent).failure.None?
    ensures fileList[j] in files && fileList[j] in sent
    ensures fileList[j] !in UploadAll(files, fileList, trawlDir, sent).files <==>
      sent[fileList[j]] == Expected(fileList[j], |files[fileList[j]]|)
  {
    var init := fileList[..|fileList| - 1];
    var last := fileList[|fileList| - 1];
    var u := UploadAll(files, init, trawlDir, sent);
    var w := UploadAll(files, fileList, trawlDir, sent);
    assert w == UploadOne(u, last, trawlDir, sent);
    UploadOneSelf(u, last, trawlDir, sent);
    NoDupInit(fileList);
    if j < |init| {
      UploadDeletesComplete(files, init, trawlDir, sent, j);
      assert init[j] == fileList[j] && init[j] in init;
      UploadOneOther(u, w, last, trawlDir, sent, fileList[j]);
      assert fileList[j] in files && fileList[j] in sent;
      assert fileList[j] !in w.files <==> sent[fileList[j]] == Expected(fileList[j], |files[fileList[j]]|);
    } else {
      assert j == |fileList| - 1;
      UploadUntouched(files, init, trawlDir, sent, last);
      assert u.files[last] == files[last];
      assert last !in w.files <==> sent[last] == Expected(last, |files[last]|);
    }
  }

  /** An upload leaves the other files where they were. */
  lemma UploadOneOther(u: Upload, w: Upload, g: string, trawlDir: string, sent: map<string, int>, f: string)
    requires w == UploadOne(u, g, trawlDir, sent) && f != g
    ensures f in w.files <==> f in u.files
  {
  }

  /** A successful upload found its file and its byte count, and deleted it
      exactly when the count is the expected one. */
  lemma UploadOneSelf(u: Upload, f: string, trawlDir: string, sent: map<string, int>)
    requires UploadOne(u, f, trawlDir, sent).failure.None?
    ensures u.failure.None? && f in u.files && f in sent
    ensures f !in UploadOne(u, f, trawlDir, sent).files <==> sent[f] == Expected(f, |u.files[f]|)
  {
  }

  lemma {:induction false} UploadUntouched(files: map<string, string>, fileList: seq<string>, trawlDir: string, sent: map<string, int>, f: string)
    requires f !in fileList
    ensures f in UploadAll(files, fileList, trawlDir, sent).files <==> f in files
    ensures f in files ==> UploadAll(files, fileList, trawlDir, sent).files[f] == files[f]
  {
    if fileList != [] {
      UploadUntouched(files, fileList[..|fileList| - 1], trawlDir, sent, f);
    }
  }

  /** A .npy file is stored under its key without the extension. */
  lemma NpyKey(files: map<string, string>, trawlDir: string, sent: map<string, int>, f: string)
    requires f in files && f in sent && BucketAndKey(f, trawlDir).Ok? && SplitExt(f).1 == ".npy"
    ensures UploadOne(Upload(files, [], None), f, trawlDir, sent).keys ==
      [(BucketAndKey(f, trawlDir).value.0, SplitExt(BucketAndKey(f, trawlDir).value.1).0)]
  {
  }

  lemma {:induction false} UploadAfterFailure(files: map<string, string>, fileList: seq<string>, i: nat, trawlDir: string, sent: map<string, int>)
    requires 0 < i <= |fileList|
    requires UploadAll(files, fileList[..i], trawlDir, sent).failure.Some?
    ensures UploadAll(files, fileList, trawlDir, sent) == UploadAll(files, fileList[..i], trawlDir, sent)
    decreases |fileList| - i
  {
    if i < |fileList| {
      assert fileList[..i + 1][..i] == fileList[..i];
      UploadAfterFailure(files, fileList, i + 1, trawlDir, sent);
    } else {
      assert fileList[..i] == fileList;
    }
  }

  /** transfer_files on the staging area: returns the keys written, or the
      exception that stopped it. */
  method TransferFiles(fs: FileSystem, trawlDir: string, fileList: seq<string>, sent: map<string, int>)
    returns (r: Result<seq<(string, string)>>)
    modifies fs
    ensures var u := UploadAll(old(fs.files), fileList, trawlDir, sent);
      fs.files == u.files && (if u.failure.Some? then r == Err(u.failure.value) else r == Ok(u.keys))
  {
    var keys: seq<(string, string)> := [];
    var i := 0;
    while i < |fileList|
      invariant 0 <= i <= |fileList|
      invariant UploadAll(old(fs.files), fileList[..i], trawlDir, sent) == Upload(fs.files, keys, None)
    {
      var failure;
      keys, failure := UploadNext(fs, old(fs.files), trawlDir, fileList, i, sent, keys);
      if failure.Some? {
        UploadAfterFailure(old(fs.files), fileList, i + 1, trawlDir, sent);
        return Err(failure.value);
      }
      i := i + 1;
    }
    assert fileList[..i] == fileList;
    r := Ok(keys);
  }

  lemma UploadAllStep(files: map<string, string>, fileList: seq<string>, i: nat, trawlDir: string, sent: map<string, int>)
    requires i < |fileList|
    ensures UploadAll(files, fileList[..i + 1], trawlDir, sent) ==
      UploadOne(UploadAll(files, fileList[..i], trawlDir, sent), fileList[i], trawlDir, sent)
  {
    assert fileList[..i + 1][..i] == fileList[..i];
  }

  /** One more turn of transfer_files' loop. */
  method UploadNext(fs: FileSystem, ghost start: map<string, string>, trawlDir: string, fileList: seq<string>, i: nat,
                    sent: map<string, int>, keys: seq<(string, string)>) returns (keys': seq<(string, string)>, failure: Option<string>)
    requires i < |fileList|
    requires UploadAll(start, fileList[..i], trawlDir, sent) == Upload(fs.files, keys, None)
    modifies fs
    ensures UploadAll(start, fileList[..i + 1], trawlDir, sent) == Upload(fs.files, keys', failure)
  {
    keys', failure := UploadFile(fs, trawlDir, fileList[i], sent, keys);
    UploadAllStep(start, fileList, i, trawlDir, sent);
  }

  /** The body of transfer_files' loop: one file, uploaded and deleted
      once stored whole, or the exception that stops the loop. */
  method UploadFile(fs: FileSystem, trawlDir: string, f: string, sent: map<string, int>, keys: seq<(string, string)>)
    returns (keys': seq<(string, string)>, failure: Option<string>)
    modifies fs
    ensures Upload(fs.files, keys', failure) == UploadOne(Upload(old(fs.files), keys, None), f, trawlDir, sent)
  {
    var bk := BucketAndKey(f, trawlDir);
    if bk.Err? {
      return keys, Some(bk.error);
    }
    if f !in fs.files {
      return keys, Some("OSError: No such file: " + f);
    }
    if f !in sent {
      return keys, Some("S3ResponseError: upload of " + f);
    }
    var key := SendFile(fs, f, bk.value.1, sent);
    keys', failure := keys + [(bk.value.0, key)], None;
  }

  /** One upload of transfer_files: the key it is stored under, and the
      file deleted when the stored byte count is the expected one. */
  method SendFile(fs: FileSystem, f: string, keyName: string, sent: map<string, int>) returns (key: string)
    requires f in fs.files && f in sent
    modifies fs
    ensures key == StoredKey(f, keyName)
    ensures fs.files == if sent[f] == Expected(f, |old(fs.files)[f]|) then old(fs.files) - {f} else old(fs.files)
  {
    var fileSize := |fs.files[f]|;
    key := keyName;
    var res := sent[f];
    if SplitExt(f).1 == ".npy" {
      key := SplitExt(key).0;
      if res == fileSize - NPY_HEADER {
        fs.files := fs.files - {f};
      }
    } else {
      if res == fileSize {
        fs.files := fs.files - {f};
      }
    }
  }

  // ---- main ----

  /** The RDB rule as written: a finished stream with no .npy files and an
      .rdb file sends [rdb_lite, rdb_full].  When the .full.rdb file is
      missing the second element is None, and transfer_files raises TypeError
      after the .rdb file has been sent and deleted.  The result is the files
      left and the exception, if any. */
  function RdbStepAsWritten(files: map<string, string>, c: CbidDict, trawlDir: string, sent: map<string, int>): (map<string, string>, Option<string>)
  {
    if c.npyCount == 0 && c.complete.Some? && c.rdbLite.Some? then
      var u := UploadAll(files, [c.rdbLite.value], trawlDir, sent);
      if u.failure.Some? then (u.files, u.failure)
      else if c.rdbFull.None? then (u.files, Some("TypeError: expected str, bytes or os.PathLike object, not NoneType"))
      else
        var u2 := UploadOne(u, c.rdbFull.value, trawlDir, sent);
        (u2.files, u2.failure)
    else (files, None)
  }

  /** A finished stream whose capture block has its .rdb file but not its
      .full.rdb file: as written, the .rdb file is uploaded and deleted and
      the trawler then raises, while the corrected rule leaves both alone. */
  lemma RdbRuleCounterexample(files: map<string, string>, c: CbidDict, trawlDir: string, sent: map<string, int>)
    requires c.npyCount == 0 && c.complete.Some? && c.rdbLite.Some? && c.rdbFull.None?
    requires c.rdbLite.value in files && c.rdbLite.value in sent && BucketAndKey(c.rdbLite.value, trawlDir).Ok?
    requires sent[c.rdbLite.value] == Expected(c.rdbLite.value, |files[c.rdbLite.value]|)
    ensures RdbStepAsWritten(files, c, trawlDir, sent).1.Some?
    ensures c.rdbLite.value !in RdbStepAsWritten(files, c, trawlDir, sent).0
    ensures RdbStep(files, c, trawlDir, sent) == Ok(files)
  {
    var x := c.rdbLite.value;
    assert [x][..0] == [];
    assert UploadAll(files, [x], trawlDir, sent) == UploadOne(Upload(files, [], None), x, trawlDir, sent);
  }

  /** The RDB rule with the .full.rdb file required as well: the pair is sent
      only when both files exist. */
  function RdbStep(files: map<string, string>, c: CbidDict, trawlDir: string, sent: map<string, int>): (r: Result<map<string, string>>)
  {
    if c.npyCount == 0 && c.complete.Some? && c.rdbLite.Some? && c.rdbFull.Some? then
      var u := UploadAll(files, [c.rdbLite.value, c.rdbFull.value], trawlDir, sent);
      if u.failure.Some? then Err(u.failure.value) else Ok(u.files)
    else Ok(files)
  }

  /** The corrected rule never raises TypeError, deletes nothing unless both
      RDB files exist, and deletes only those two files. */
  lemma RdbStepDeletes(files: map<string, string>, c: CbidDict, trawlDir: string, sent: map<string, int>, f: string)
    requires f in files
    requires RdbStep(files, c, trawlDir, sent).Ok?
    requires f !in RdbStep(files, c, trawlDir, sent).value
    ensures c.npyCount == 0 && c.complete.Some? && c.rdbLite.Some? && c.rdbFull.Some?
    ensures f == c.rdbLite.value || f == c.rdbFull.value
    ensures f in sent && sent[f] == Expected(f, |files[f]|)
  {
    UploadDeletesOnlyComplete(files, [c.rdbLite.value, c.rdbFull.value], trawlDir, sent, f);
  }

  /** The upload of the manifest: one slice per worker, each slice sent by
      transfer_files.  The slices hold disjoint files, so the staging area
      ends as if they ran one after the other; the first exception, in slice
      order, is the one p.result() re-raises. */
  function UploadSlicesSpec(files: map<string, string>, slices: seq<seq<string>>, trawlDir: string, sent: map<string, int>): (map<string, string>, Option<string>)
  {
    if slices == [] then (files, None)
    else
      var prev := UploadSlicesSpec(files, slices[..|slices| - 1], trawlDir, sent);
      var u := UploadAll(prev.0, slices[|slices| - 1], trawlDir, sent);
      (u.files, if prev.1.Some? then prev.1 else u.failure)
  }

  /** parallel_upload's split: CPU_MULTIPLIER workers per CPU, whatever the
      length of the list. */
  function ParallelSlices(fileList: seq<string>, cpus: nat): (r: seq<seq<string>>)
    requires cpus > 0
    ensures |r| == CPU_MULTIPLIER * cpus
  {
    Slices(fileList, CPU_MULTIPLIER * cpus)
  }

  /** Each file of a list without repeats is sent by exactly one worker; with
      fewer files than workers, some workers get nothing. */
  lemma ParallelSlicesPartition(fileList: seq<string>, cpus: nat, j: nat, k: nat)
    requires cpus > 0 && NoDup(fileList) && j < |fileList| && k < CPU_MULTIPLIER * cpus
    ensures fileList[j] in ParallelSlices(fileList, cpus)[k] <==> k == j % (CPU_MULTIPLIER * cpus)
  {
    ExactlyOneSlice(fileList, CPU_MULTIPLIER * cpus, j, k);
  }

  lemma UploadSlicesStep(files: map<string, string>, slices: seq<seq<string>>, i: nat, trawlDir: string, sent: map<string, int>)
    requires i < |slices|
    ensures var prev := UploadSlicesSpec(files, slices[..i], trawlDir, sent);
      var u := UploadAll(prev.0, slices[i], trawlDir, sent);
      UploadSlicesSpec(files, slices[..i + 1], trawlDir, sent) == (u.files, if prev.1.Some? then prev.1 else u.failure)
  {
    assert slices[..i + 1][..i] == slices[..i];
  }

  method ParallelUpload(fs: FileSystem, trawlDir: string, fileList: seq<string>, cpus: nat, sent: map<string, int>)
    returns (r: Result<()>)
    requires cpus > 0
    modifies fs
    ensures var u := UploadSlicesSpec(old(fs.files), ParallelSlices(fileList, cpus), trawlDir, sent);
      fs.files == u.0 && (if u.1.Some? then r == Err(u.1.value) else r == Ok(()))
  {
    ghost var files0 := fs.files;
    var slices := ParallelSlices(fileList, cpus);
    var failure: Option<string> := None;
    var i := 0;
    while i < |slices|
      invariant 0 <= i <= |slices|
      invariant UploadSlicesSpec(files0, slices[..i], trawlDir, sent) == (fs.files, failure)
    {
      UploadSlicesStep(files0, slices, i, trawlDir, sent);
      var res := TransferFiles(fs, trawlDir, slices[i], sent);
      if res.Err? && failure.None? {
        failure := Some(res.error);
      }
      i := i + 1;
    }
    assert slices[..i] == slices;
    r := if failure.Some? then Err(failure.value) else Ok(());
  }

  /** The RDB rule over every stream, in order; an exception ends main. */
  function RdbPhase(files: map<string, string>, cs: seq<CbidDict>, trawlDir: string, sent: map<string, int>): Result<map<string, string>>
  {
    if cs == [] then Ok(files)
    else match RdbPhase(files, cs[..|cs| - 1], trawlDir, sent)
      case Err(e) => Err(e)
      case Ok(f1) => RdbStep(f1, cs[|cs| - 1], trawlDir, sent)
  }

  /** The report after an upload divides the size by the whole seconds the
      timer stored; an upload of under a second stores 0. */
  const UPLOAD_RATE_ERROR := "ZeroDivisionError: float division by zero"

  /** main up to the report: the staging area after the RDB rule and the
      upload, and whether the upload ran, or the exception that ended it. */
  function Staged(files: map<string, string>, trawlDir: string, subDirs: seq<string>, globs: map<string, seq<string>>,
                  sent: map<string, int>, cpus: nat): Result<(map<string, string>, bool)>
    requires cpus > 0
  {
    match Details(files, trawlDir, Sort(VisTrawler.Select(trawlDir, subDirs, true)), globs)
    case Err(e) => Err(e)
    case Ok(cs) =>
      match RdbPhase(files, cs, trawlDir, sent)
      case Err(e) => Err(e)
      case Ok(f1) =>
        var uploads := Head(Flatten(cs), MAX_TRANSFER);
        if UploadSize(uploads, f1) > 0 then
          var u := UploadSlicesSpec(f1, ParallelSlices(uploads, cpus), trawlDir, sent);
          if u.1.Some? then Err(u.1.value) else Ok((u.0, true))
        else Ok((f1, false))
  }

  /** main: the staging area after one pass, or the exception that ended it.
      seconds is what the timer around parallel_upload stores: the elapsed
      clock time truncated to whole seconds. */
  function MainSpec(files: map<string, string>, trawlDir: string, subDirs: seq<string>, globs: map<string, seq<string>>,
                    sent: map<string, int>, cpus: nat, seconds: int): Result<map<string, string>>
    requires cpus > 0
  {
    match Staged(files, trawlDir, subDirs, globs, sent, cpus)
    case Err(e) => Err(e)
    case Ok((f, uploaded)) => if uploaded && seconds == 0 then Err(UPLOAD_RATE_ERROR) else Ok(f)
  }

  method TrawlPass(fs: FileSystem, trawlDir: string, subDirs: seq<string>, globs: map<string, seq<string>>, sent: map<string, int>,
                   cpus: nat, seconds: int)
    returns (r: Result<()>)
    requires cpus > 0
    modifies fs
    ensures var spec := MainSpec(old(fs.files), trawlDir, subDirs, globs, sent, cpus, seconds);
      (spec.Ok? ==> r.Ok? && fs.files == spec.value) && (spec.Err? ==> r == Err(spec.error))
    ensures var st := Staged(old(fs.files), trawlDir, subDirs, globs, sent, cpus);
      st.Ok? ==> fs.files == st.value.0 && (r.Err? <==> st.value.1 && seconds == 0)
  {
    var cbidDirs := VisTrawler.Select(trawlDir, subDirs, true);
    var details := Details(fs.files, trawlDir, Sort(cbidDirs), globs);
    if details.Err? {
      return Err(details.error);
    }
    var cs := details.value;
    var rdb := SendRdbPairs(fs, cs, trawlDir, sent);
    if rdb.Err? {
      return rdb;
    }
    var uploadList := GenUploadManifest(cs, MAX_TRANSFER);
    var uploadSize := UploadSize(uploadList, fs.files);
    r := Ok(());
    if uploadSize > 0 {
      r := ParallelUpload(fs, trawlDir, uploadList, cpus, sent);
      if r.Ok? && seconds == 0 {
        r := Err(UPLOAD_RATE_ERROR);
      }
    }
  }

  /** The RDB rule over the streams, on the staging area. */
  method SendRdbPairs(fs: FileSystem, cs: seq<CbidDict>, trawlDir: string, sent: map<string, int>) returns (r: Result<()>)
    modifies fs
    ensures var spec := RdbPhase(old(fs.files), cs, trawlDir, sent);
      (spec.Ok? ==> r.Ok? && fs.files == spec.value) && (spec.Err? ==> r == Err(spec.error))
  {
    var i := 0;
    while i < |cs|
      invariant 0 <= i <= |cs|
      invariant RdbPhase(old(fs.files), cs[..i], trawlDir, sent) == Ok(fs.files)
    {
      assert cs[..i + 1][..i] == cs[..i];
      var c := cs[i];
      if c.npyCount == 0 && c.complete.Some? && c.rdbLite.Some? && c.rdbFull.Some? {
        var res := TransferFiles(fs, trawlDir, [c.rdbLite.value, c.rdbFull.value], sent);
        if res.Err? {
          RdbPhaseAfterFailure(old(fs.files), cs, i + 1, trawlDir, sent);
          return Err(res.error);
        }
      }
      i := i + 1;
    }
    assert cs[..i] == cs;
    r := Ok(());
  }

  lemma {:induction false} RdbPhaseAfterFailure(files: map<string, string>, cs: seq<CbidDict>, i: nat, trawlDir: string, sent: map<string, int>)
    requires 0 < i <= |cs|
    requires RdbPhase(files, cs[..i], trawlDir, sent).Err?
    ensures RdbPhase(files, cs, trawlDir, sent) == RdbPhase(files, cs[..i], trawlDir, sent)
    decreases |cs| - i
  {
    if i < |cs| {
      assert cs[..i + 1][..i] == cs[..i];
      RdbPhaseAfterFailure(files, cs, i + 1, trawlDir, sent);
    } else {
      assert cs[..i] == cs;
    }
  }
}
