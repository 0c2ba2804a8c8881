// The visibility trawler: one pass over the trawl directory.  Capture block
// directories are handled first, in sorted order: a finished empty one is
// removed, and each of its RDB products with both its .rdb and .full.rdb file
// present is ingested, a failure carrying a bucket name marking the product
// failed and ending that capture block.  Capture stream directories follow:
// a finished empty one is removed and the .npy files of the others are
// collected, at most MAX_TRANSFERS of them, for the parallel upload.
//
// The outside world is a `World` value: `walks` gives the files os.walk
// reports under a directory, `products` what extraction and the metadata
// store give for an RDB product, and `sent` the byte counts the object store
// reports.  An ingest is either the code as written, which raises the
// AttributeError of scripts/vis_trawler.py:226 on every product not yet
// RECEIVED, or the corrected IngestProduct, which sets the status, uploads
// the product's two RDB files and stores the record.

module VisTrawler {
  import opened Wrappers
  import opened Strs
  import opened Metadata
  import opened FileScan
  import opened TrawlFs
  import opened MetHandler
  import ProdHandler
  import Slicing

  const MAX_TRANSFERS: nat := 5000
  const COMPLETE_TOKEN := "complete"

  // ---- list_trawl_dir ----

  /** ^[0-9]{10}_.*$ */
  predicate IsStreamName(d: string)
  {
    |d| >= 11 && TenDigitHead(d) && d[10] == '_'
  }

  predicate NameWanted(d: string, stream: bool)
  {
    if stream then IsStreamName(d) else IsCaptureBlockId(d)
  }

  /** The sub-directories of one kind, joined to the trawl directory. */
  function Select(trawlDir: string, subDirs: seq<string>, stream: bool): (r: seq<string>)
    ensures forall p :: p in r <==> exists d :: d in subDirs && NameWanted(d, stream) && p == PathJoin(trawlDir, d)
  {
    if subDirs == [] then []
    else
      var rest := Select(trawlDir, subDirs[1..], stream);
      assert forall d :: d in subDirs <==> d == subDirs[0] || d in subDirs[1..];
      (if NameWanted(subDirs[0], stream) then [PathJoin(trawlDir, subDirs[0])] else []) + rest
  }

  /** list_trawl_dir: the capture block and the capture stream directories. */
  function ListTrawlDir(trawlDir: string, subDirs: seq<string>): (seq<string>, seq<string>)
  {
    (Select(trawlDir, subDirs, false), Select(trawlDir, subDirs, true))
  }

  /** No directory is both a capture block and a capture stream. */
  lemma ListTrawlDirDisjoint(trawlDir: string, subDirs: seq<string>, p: string)
    requires forall d :: d in subDirs ==> !StartsWith(d, "/")
    ensures !(p in ListTrawlDir(trawlDir, subDirs).0 && p in ListTrawlDir(trawlDir, subDirs).1)
  {
  }

  // ---- list_trawl_files ----

  /** What list_trawl_files reports: nothing, and not complete, when the
      directory holds a failed token; the classified walk otherwise. */
  function Listing(files: map<string, string>, prodDir: string, entries: seq<WalkEntry>, fileExt: string, writeExt: string): Scan
  {
    if PathJoin(prodDir, FAILED_TOKEN) in files then Scan([], false)
    else Classify(entries, fileExt, writeExt, COMPLETE_TOKEN)
  }

  method ListTrawlFiles(files: map<string, string>, prodDir: string, entries: seq<WalkEntry>, fileExt: string, writeExt: string)
    returns (matches: seq<string>, complete: bool)
    ensures Scan(matches, complete) == Listing(files, prodDir, entries, fileExt, writeExt)
    ensures PathJoin(prodDir, FAILED_TOKEN) in files ==> matches == [] && !complete
  {
    matches, complete := [], false;
    if PathJoin(prodDir, FAILED_TOKEN) in files {
      return;
    }
    var i := 0;
    while i < |entries|
      invariant 0 <= i <= |entries|
      invariant Scan(matches, complete) == Classify(entries[..i], fileExt, writeExt, COMPLETE_TOKEN)
    {
      var e := entries[i];
      ClassifySnoc(entries[..i], e, fileExt, writeExt, COMPLETE_TOKEN);
      assert entries[..i + 1] == entries[..i] + [e];
      if EndsWith(e.name, writeExt) {
        // still being written to
      } else if EndsWith(e.name, fileExt) {
        matches := matches + [PathJoin(e.root, e.name)];
      } else if EndsWith(e.name, COMPLETE_TOKEN) {
        complete := true;
      }
      i := i + 1;
    }
    assert entries[..i] == entries;
  }

  /** A joined path ends with the file name, so every collected file has the
      wanted extension. */
  lemma JoinEndsWithName(root: string, name: string, ext: string)
    requires EndsWith(name, ext)
    ensures EndsWith(PathJoin(root, name), ext)
  {
    var j := PathJoin(root, name);
    assert j[|j| - |name|..] == name;
    assert j[|j| - |ext|..] == name[|name| - |ext|..];
  }

  lemma {:induction false} MatchesHaveExt(entries: seq<WalkEntry>, fileExt: string, writeExt: string, x: string)
    requires x in Classify(entries, fileExt, writeExt, COMPLETE_TOKEN).matches
    ensures EndsWith(x, fileExt)
  {
    ClassifyMatches(entries, fileExt, writeExt, COMPLETE_TOKEN, x);
    var i :| 0 <= i < |entries| && Judge(entries[i].name, fileExt, writeExt, COMPLETE_TOKEN) == Match
      && x == PathJoin(entries[i].root, entries[i].name);
    JoinEndsWithName(entries[i].root, entries[i].name, fileExt);
  }

  // ---- the RDB product of a capture block file ----

  /** The last position below n where a block starts. */
  function LastBlock(s: string, n: nat): (r: Option<nat>)
    ensures r.Some? ==> r.value < n && BlockAt(s, r.value) && forall q: nat :: r.value < q < n ==> !BlockAt(s, q)
    ensures r.None? ==> forall q: nat :: q < n ==> !BlockAt(s, q)
  {
    if n == 0 then None
    else if BlockAt(s, n - 1) then Some(n - 1)
    else LastBlock(s, n - 1)
  }

  /** The first '.' at or after i, or the end of s. */
  function DotFrom(s: string, i: nat): (r: nat)
    requires i <= |s|
    ensures i <= r <= |s| && (r < |s| ==> s[r] == '.')
    ensures forall j :: i <= j < r ==> s[j] != '.'
    decreases |s| - i
  {
    if i == |s| || s[i] == '.' then i else DotFrom(s, i + 1)
  }

  /** re.match('^.*[0-9]{10}_[^.]*', s).group(): the greedy '.*' puts the
      block at its last possible position, and the product name runs from
      there to the next '.'. */
  function RdbPrefix(s: string): (r: Option<string>)
    ensures r.Some? ==> StartsWith(s, r.value) && (|r.value| == |s| || s[|r.value|] == '.')
    ensures r.None? <==> forall q: nat :: q < |s| ==> !BlockAt(s, q)
  {
    match LastBlock(s, |s|)
    case None => None
    case Some(p) =>
      var e := DotFrom(s, p + 11);
      Some(s[..e])
  }

  lemma {:induction false} LastBlockSame(x: string, y: string, n: nat)
    requires forall q: nat :: q < n ==> (BlockAt(y, q) <==> BlockAt(x, q))
    ensures LastBlock(y, n) == LastBlock(x, n)
  {
    if n > 0 {
      LastBlockSame(x, y, n - 1);
    }
  }

  lemma {:induction false} LastBlockBeyond(x: string, n: nat)
    requires n >= |x|
    ensures LastBlock(x, n) == LastBlock(x, |x|)
  {
    if n > |x| {
      assert !BlockAt(x, n - 1);
      LastBlockBeyond(x, n - 1);
    }
  }

  /** The .rdb and .full.rdb files of one product have that product's name
      as their prefix, which is what pairs them. */
  lemma PairSharesPrefix(x: string, suffix: string)
    requires RdbPrefix(x) == Some(x)
    requires suffix in {".rdb", ".full.rdb"}
    ensures RdbPrefix(x + suffix) == Some(x)
  {
    var y := x + suffix;
    assert y[..|x|] == x;
    forall q: nat | q < |y| ensures BlockAt(y, q) <==> BlockAt(x, q) {
      if q + 11 <= |x| {
        assert y[q..q + 10] == x[q..q + 10];
      } else if q + 11 <= |y| {
        assert y[q + 10] in suffix;
        assert !BlockAt(x, q);
      }
    }
    LastBlockSame(x, y, |y|);
    LastBlockBeyond(x, |y|);
    var p := LastBlock(x, |x|).value;
    var e := DotFrom(y, p + 11);
    assert DotFrom(x, p + 11) == |x|;
    assert y[|x|] == '.';
    assert e == |x|;
  }

  // ---- ingest_vis_product ----

  /** An exception raised while ingesting, with the bucket name the source
      attaches to it when it has one. */
  datatype Failure = Failure(msg: string, bucket: Option<string>)

  /** What the outside world answers for one RDB product: the product type
      and the metadata that file_type_detection and the extractor it picks
      give, or the exception either of them raises; and the record Solr holds
      for the product ({} when there is none). */
  datatype ProductEnv = ProductEnv(extraction: Result<(string, Met)>, existing: Met)

  /** Everything else a trawl takes from outside: the files os.walk reports
      under each directory, each RDB product's answers, the sizes of
      directories, the guessed mime types, the byte count the store reports
      for each upload, the CPU count and the clock. */
  datatype World = World(walks: map<string, seq<WalkEntry>>, products: string -> ProductEnv,
                         dirSizes: map<string, nat>, guessed: map<string, string>,
                         sent: map<string, int>, cpus: nat, now: string)

  /** The outcome of one ingest: the record it stored, or the exception it raised. */
  datatype Ingest = Ingested(met: Met) | Raised(failure: Failure)

  const RECEIVED := "RECEIVED"
  const NO_TRANSFERRING := "AttributeError: 'MetaDataHandler' object has no attribute 'set_product_transferring'"

  /** The bucket name ingest attaches to its errors: the first component of
      the reference's path below the trawl directory. */
  function BucketOf(ref: string, trawlDir: string): (r: string)
    ensures '/' !in r
  {
    var rel := RelPath(ref, trawlDir);
    rel[..FirstIndex(rel, '/')]
  }

  /** What os.path.getsize answers: the length of a file of the staging
      area, or the size of a directory. */
  function SizesOf(files: map<string, string>, dirSizes: map<string, nat>): (r: map<string, nat>)
    ensures forall p :: p in files ==> p in r && r[p] == |files[p]|
    ensures forall p :: p in dirSizes && p !in files ==> p in r && r[p] == dirSizes[p]
  {
    map p | p in files.Keys + dirSizes.Keys :: if p in files then |files[p]| else dirSizes[p]
  }

  /** The checks ingest_vis_product makes before it changes the record: the
      record is the stored one, or a new core record when there is none, and a
      product already RECEIVED is refused. */
  function IngestStart(existing: Met, prodId: string, productType: string): (r: Result<Met>)
    ensures existing == map[] ==> r == Ok(CoreMet(prodId, prodId, productType))
    ensures r.Err? <==> STATUS in existing && existing[STATUS] == Text(RECEIVED)
  {
    CoreMetLacksStatus(prodId, prodId, productType);
    var met := if existing == map[] then CoreMet(prodId, prodId, productType) else existing;
    if STATUS in met && met[STATUS] == Text(RECEIVED) then
      Err("MetExtractorException: " + prodId + " marked as RECEIVED, while trying to create new product.")
    else Ok(met)
  }

  /** What the ingest does to the record between the RECEIVED check and the
      upload: the TRANSFERRING status, the original references with their
      common directory first, and the product metadata. */
  function Prepared(met: Met, refs: seq<string>, extracted: Met, fileSizes: map<string, nat>, guessed: map<string, string>): Result<Met>
    requires refs != []
  {
    match RefOriginalMet(met[STATUS := Text("TRANSFERRING")], [Dirname(CommonPrefix(refs))] + refs, fileSizes, guessed)
    case Err(e) => Err(e)
    case Ok(met2) => Ok(ProdMet(met2, extracted))
  }

  /** What it does after the upload: the datastore references of the files
      transferred, with their common prefix first, and the RECEIVED status. */
  function Finished(met: Met, transferred: seq<string>, now: string): Met
  {
    ReceivedMet(RefDatastoreMet(met, [Dirname(CommonPrefix(transferred))] + transferred), now)
  }

  /** Both halves, for an upload that transferred the given URLs. */
  function Stored(met: Met, refs: seq<string>, extracted: Met, fileSizes: map<string, nat>, guessed: map<string, string>,
                  transferred: seq<string>, now: string): Result<Met>
    requires refs != []
  {
    match Prepared(met, refs, extracted, fileSizes, guessed)
    case Err(e) => Err(e)
    case Ok(met3) => Ok(Finished(met3, transferred, now))
  }

  /** The record ingest_vis_product stores when set_product_transferring is
      read as setting the status TRANSFERRING; `fileSizes`, `guessed`,
      `transferred` and `now` stand for os.path.getsize, mimetypes, the
      upload's URL list and the clock. */
  function IngestMet(existing: Met, prodId: string, productType: string, refs: seq<string>,
                     extracted: Met, fileSizes: map<string, nat>, guessed: map<string, string>,
                     transferred: seq<string>, now: string): (r: Result<Met>)
    requires refs != []
    ensures r.Ok? <==> (IngestStart(existing, prodId, productType).Ok? &&
      Sizes([Dirname(CommonPrefix(refs))] + refs, fileSizes).Ok?)
  {
    match IngestStart(existing, prodId, productType)
    case Err(e) => Err(e)
    case Ok(met) => Stored(met, refs, extracted, fileSizes, guessed, transferred, now)
  }

  /** parallel_upload of a list: ValueError when there would be no workers
      (the split the product handler's uploader makes too), and otherwise the
      transfers of the slices. */
  function UploadSpec(files: map<string, string>, fileList: seq<string>, trawlDir: string, cpus: nat, sent: map<string, int>): Transfer
  {
    match ProdHandler.UploadSlices(fileList, cpus)
    case Err(e) => Transfer(files, [], Some(e))
    case Ok(slices) => TransferSlices(files, slices, trawlDir, sent)
  }

  /** The .rdb and .full.rdb files of an RDB product. */
  function Refs(p: string): seq<string>
  {
    [p + ".rdb", p + ".full.rdb"]
  }

  /** How far an ingest gets before its upload: the exception that stops it,
      or the record it has prepared. */
  datatype Prep = Stop(failure: Failure) | Go(met: Met)

  /** ingest_vis_product up to the upload, with set_product_transferring
      read as setting the status TRANSFERRING: the extraction, the RECEIVED
      check and the record before the upload.  An extraction error or a
      RECEIVED record raises with the capture block's bucket name; the size
      lookup raises without one. */
  function PreUpload(files: map<string, string>, trawlDir: string, cb: string, p: string, w: World): Prep
  {
    var bucket := BucketOf(Refs(p)[0], trawlDir);
    var env := w.products(p);
    match env.extraction
    case Err(e) => Stop(Failure(e, Some(bucket)))
    case Ok((productType, extracted)) =>
      match IngestStart(env.existing, RelPath(p, cb), productType)
      case Err(e) => Stop(Failure(e, Some(bucket)))
      case Ok(met) =>
        match Prepared(met, Refs(p), extracted, SizesOf(files, w.dirSizes), w.guessed)
        case Err(e) => Stop(Failure(e, None))
        case Ok(met3) => Go(met3)
  }

  /** ingest_vis_product, corrected as PreUpload says: then the upload of
      both files, which raises without a bucket name, and the record after
      it.  Returns the staging area the ingest leaves and its outcome. */
  function IngestProduct(files: map<string, string>, trawlDir: string, cb: string, p: string, w: World): (map<string, string>, Ingest)
  {
    AfterPrep(PreUpload(files, trawlDir, cb, p, w), files, trawlDir, p, w)
  }

  /** The rest of the corrected ingest, once PreUpload has given `prep`. */
  function AfterPrep(prep: Prep, files: map<string, string>, trawlDir: string, p: string, w: World): (map<string, string>, Ingest)
  {
    match prep
    case Stop(fail) => (files, Raised(fail))
    case Go(met3) =>
      var t := UploadSpec(files, Refs(p), trawlDir, w.cpus, w.sent);
      if t.failure.Some? then (t.files, Raised(Failure(t.failure.value, None)))
      else (t.files, Ingested(Finished(met3, t.urls, w.now)))
  }

  /** A prepared record is the one IngestMet completes, whatever the upload
      transfers. */
  lemma PreUploadMet(files: map<string, string>, trawlDir: string, cb: string, p: string, w: World, transferred: seq<string>)
    requires PreUpload(files, trawlDir, cb, p, w).Go?
    ensures var env := w.products(p);
      env.extraction.Ok? &&
      IngestMet(env.existing, RelPath(p, cb), env.extraction.value.0, Refs(p), env.extraction.value.1,
                SizesOf(files, w.dirSizes), w.guessed, transferred, w.now)
        == Ok(Finished(PreUpload(files, trawlDir, cb, p, w).met, transferred, w.now))
  {
    var env := w.products(p);
    var productType := env.extraction.value.0;
    var extracted := env.extraction.value.1;
    var sizes := SizesOf(files, w.dirSizes);
    var start := IngestStart(env.existing, RelPath(p, cb), productType);
    assert start.Ok?;
    var prepared := Prepared(start.value, Refs(p), extracted, sizes, w.guessed);
    assert prepared.Ok? && PreUpload(files, trawlDir, cb, p, w).met == prepared.value;
    assert Stored(start.value, Refs(p), extracted, sizes, w.guessed, transferred, w.now) == Ok(Finished(prepared.value, transferred, w.now));
  }

  /** ingest_vis_product as written: past the RECEIVED check it calls
      set_product_transferring, which the metadata handler does not define,
      so it raises AttributeError, which carries no bucket name, before any
      upload. */
  function IngestProductAsWritten(files: map<string, string>, trawlDir: string, cb: string, p: string, w: World): (map<string, string>, Ingest)
  {
    var bucket := BucketOf(Refs(p)[0], trawlDir);
    var env := w.products(p);
    match env.extraction
    case Err(e) => (files, Raised(Failure(e, Some(bucket))))
    case Ok((productType, _)) =>
      match IngestStart(env.existing, RelPath(p, cb), productType)
      case Err(e) => (files, Raised(Failure(e, Some(bucket))))
      case Ok(_) => (files, Raised(Failure(NO_TRANSFERRING, None)))
  }

  function Outcome(files: map<string, string>, trawlDir: string, cb: string, p: string, w: World, asWritten: bool): (map<string, string>, Ingest)
  {
    if asWritten then IngestProductAsWritten(files, trawlDir, cb, p, w) else IngestProduct(files, trawlDir, cb, p, w)
  }

  /** The ingest as written never stores a record and never touches the
      staging area: it raises with the bucket name when the extraction fails
      or the record is RECEIVED, and raises AttributeError otherwise. */
  lemma IngestAsWrittenFails(files: map<string, string>, trawlDir: string, cb: string, p: string, w: World)
    ensures var (f1, o) := IngestProductAsWritten(files, trawlDir, cb, p, w);
      f1 == files && o.Raised? &&
      (o.failure.bucket.None? <==> (w.products(p).extraction.Ok? &&
        IngestStart(w.products(p).existing, RelPath(p, cb), w.products(p).extraction.value.0).Ok?)) &&
      (o.failure.bucket.None? ==> o.failure.msg == NO_TRANSFERRING)
  {
  }

  /** parallel_upload takes a file from the staging area only when it is in
      the list and the store reported its whole size; every file it keeps is
      unchanged. */
  lemma UploadSpecRemoves(files: map<string, string>, fileList: seq<string>, trawlDir: string, cpus: nat, sent: map<string, int>, f: string)
    requires f in files
    ensures var r := UploadSpec(files, fileList, trawlDir, cpus, sent).files;
      (f in r ==> r[f] == files[f]) &&
      (f !in r ==> f in fileList && f in sent && sent[f] == |files[f]|)
  {
    var split := ProdHandler.UploadSlices(fileList, cpus);
    if split.Ok? {
      var slices := split.value;
      SlicesDeleteOnlyComplete(files, slices, trawlDir, sent, f);
      if f !in TransferSlices(files, slices, trawlDir, sent).files {
        Slicing.SlicesCover(fileList, ProdHandler.Workers(|fileList|, cpus), f);
      }
    }
  }

  /** The corrected ingest stores a record only when it got past PreUpload
      and its upload raised nothing, and that record is the prepared one
      completed with the URLs transferred. */
  lemma IngestProductSteps(files: map<string, string>, trawlDir: string, cb: string, p: string, w: World)
    ensures var o := IngestProduct(files, trawlDir, cb, p, w).1;
      var t := UploadSpec(files, Refs(p), trawlDir, w.cpus, w.sent);
      o.Ingested? <==> PreUpload(files, trawlDir, cb, p, w).Go? && t.failure.None?
    ensures var o := IngestProduct(files, trawlDir, cb, p, w).1;
      var t := UploadSpec(files, Refs(p), trawlDir, w.cpus, w.sent);
      o.Ingested? ==> o.met == Finished(PreUpload(files, trawlDir, cb, p, w).met, t.urls, w.now)
  {
    var prep := PreUpload(files, trawlDir, cb, p, w);
    assert IngestProduct(files, trawlDir, cb, p, w) == AfterPrep(prep, files, trawlDir, p, w);
    AfterPrepSteps(prep, files, trawlDir, p, w);
  }

  lemma AfterPrepSteps(prep: Prep, files: map<string, string>, trawlDir: string, p: string, w: World)
    ensures var o := AfterPrep(prep, files, trawlDir, p, w).1;
      var t := UploadSpec(files, Refs(p), trawlDir, w.cpus, w.sent);
      (o.Ingested? <==> prep.Go? && t.failure.None?) &&
      (o.Ingested? ==> o.met == Finished(prep.met, t.urls, w.now))
  {
  }

  /** The corrected ingest stores exactly the record IngestMet gives for the
      URLs its upload transferred. */
  lemma IngestProductMet(files: map<string, string>, trawlDir: string, cb: string, p: string, w: World)
    requires IngestProduct(files, trawlDir, cb, p, w).1.Ingested?
    ensures var env := w.products(p);
      env.extraction.Ok? &&
      Ok(IngestProduct(files, trawlDir, cb, p, w).1.met) ==
        IngestMet(env.existing, RelPath(p, cb), env.extraction.value.0, Refs(p), env.extraction.value.1,
                  SizesOf(files, w.dirSizes), w.guessed, UploadSpec(files, Refs(p), trawlDir, w.cpus, w.sent).urls, w.now)
  {
    var t := UploadSpec(files, Refs(p), trawlDir, w.cpus, w.sent);
    IngestProductSteps(files, trawlDir, cb, p, w);
    PreUploadMet(files, trawlDir, cb, p, w, t.urls);
  }

  /** One ingest takes from the staging area only the product's own two
      files, each one only when the store reported its whole size, and as
      written it takes none; every file it keeps is unchanged. */
  lemma OutcomeRemoves(files: map<string, string>, trawlDir: string, cb: string, p: string, w: World, asWritten: bool, f: string)
    requires f in files
    ensures var f1 := Outcome(files, trawlDir, cb, p, w, asWritten).0;
      (f in f1 ==> f1[f] == files[f]) &&
      (f !in f1 ==> !asWritten && f in Refs(p) && f in w.sent && w.sent[f] == |files[f]|)
  {
    if !asWritten {
      IngestProductFiles(files, trawlDir, cb, p, w);
      UploadSpecRemoves(files, Refs(p), trawlDir, w.cpus, w.sent, f);
    }
  }

  /** The corrected ingest leaves the staging area as it was, or as the
      upload of the product's two files leaves it. */
  lemma IngestProductFiles(files: map<string, string>, trawlDir: string, cb: string, p: string, w: World)
    ensures var f1 := IngestProduct(files, trawlDir, cb, p, w).0;
      f1 == files || f1 == UploadSpec(files, Refs(p), trawlDir, w.cpus, w.sent).files
  {
    var prep := PreUpload(files, trawlDir, cb, p, w);
    assert IngestProduct(files, trawlDir, cb, p, w) == AfterPrep(prep, files, trawlDir, p, w);
    AfterPrepFiles(prep, files, trawlDir, p, w);
  }

  lemma AfterPrepFiles(prep: Prep, files: map<string, string>, trawlDir: string, p: string, w: World)
    ensures var f1 := AfterPrep(prep, files, trawlDir, p, w).0;
      f1 == files || f1 == UploadSpec(files, Refs(p), trawlDir, w.cpus, w.sent).files
  {
  }

  /** A parallel upload never brings back a file. */
  lemma {:induction false} TransferSlicesNoRevive(files: map<string, string>, slices: seq<seq<string>>, trawlDir: string, sent: map<string, int>, g: string)
    requires g in TransferSlices(files, slices, trawlDir, sent).files
    ensures g in files
  {
    if slices != [] {
      var init := slices[..|slices| - 1];
      TransferAllNoRevive(TransferSlices(files, init, trawlDir, sent).files, slices[|slices| - 1], trawlDir, sent, g);
      TransferSlicesNoRevive(files, init, trawlDir, sent, g);
    }
  }

  // ---- capture blocks ----

  /** The state a trawl pass reaches: the staging area, the records ingested
      so far, and the exception that ended the pass, if one did. */
  datatype Pass = Pass(files: map<string, string>, ingested: seq<Met>, error: Option<string>)

  function Stems(matches: seq<string>): (r: seq<string>)
    ensures forall x :: x in r <==> exists f :: f in matches && RdbPrefix(f) == Some(x)
  {
    if matches == [] then []
    else
      var rest := Stems(matches[1..]);
      assert forall f :: f in matches <==> f == matches[0] || f in matches[1..];
      (if RdbPrefix(matches[0]).Some? then [RdbPrefix(matches[0]).value] else []) + rest
  }

  /** sorted(list(set(prefixes))): the products of a capture block, in order. */
  function RdbProducts(matches: seq<string>): (r: seq<string>)
    ensures Sorted(r) && NoDup(r)
    ensures forall x :: x in r <==> exists f :: f in matches && RdbPrefix(f) == Some(x)
  {
    var d := Dedup(Stems(matches));
    SortedNoDup(d);
    SortKeeps(d);
    Sort(d)
  }

  predicate Paired(prod: string, matches: seq<string>)
  {
    prod + ".rdb" in matches && prod + ".full.rdb" in matches
  }

  /** The inner loop over a capture block's RDB products: only products with
      both files are ingested; the first failure with a bucket name writes a
      failed token and ends the loop, and one without a bucket name is
      re-raised. */
  function IngestAll(files: map<string, string>, trawlDir: string, cb: string, prods: seq<string>, matches: seq<string>,
                     w: World, asWritten: bool): Pass
    decreases |prods|
  {
    if prods == [] then Pass(files, [], None)
    else if !Paired(prods[0], matches) then IngestAll(files, trawlDir, cb, prods[1..], matches, w, asWritten)
    else
      var (f1, o) := Outcome(files, trawlDir, cb, prods[0], w, asWritten);
      match o
      case Ingested(met) =>
        var rest := IngestAll(f1, trawlDir, cb, prods[1..], matches, w, asWritten);
        Pass(rest.files, [met] + rest.ingested, rest.error)
      case Raised(fail) =>
        if fail.bucket.Some? then Pass(WithFailedToken(f1, PathJoin(trawlDir, fail.bucket.value), Some(fail.msg)), [], None)
        else Pass(f1, [], Some(fail.msg))
  }

  /** An ingest never brings back a file. */
  lemma OutcomeNoRevive(files: map<string, string>, trawlDir: string, cb: string, p: string, w: World, asWritten: bool, g: string)
    requires g in Outcome(files, trawlDir, cb, p, w, asWritten).0
    ensures g in files
  {
    if asWritten {
      IngestAsWrittenFails(files, trawlDir, cb, p, w);
    } else {
      IngestProductFiles(files, trawlDir, cb, p, w);
      var split := ProdHandler.UploadSlices(Refs(p), w.cpus);
      if split.Ok? && g !in files {
        TransferSlicesNoRevive(files, split.value, trawlDir, w.sent, g);
      }
    }
  }

  /** The only files the ingest loop adds are failed tokens. */
  lemma {:induction false} IngestAllNoNew(files: map<string, string>, trawlDir: string, cb: string, prods: seq<string>, matches: seq<string>,
                                          w: World, asWritten: bool, g: string)
    requires g in IngestAll(files, trawlDir, cb, prods, matches, w, asWritten).files
    requires g !in files
    ensures EndsWith(g, FAILED_TOKEN)
    decreases |prods|
  {
    if prods != [] {
      var p := prods[0];
      if !Paired(p, matches) {
        IngestAllNoNew(files, trawlDir, cb, prods[1..], matches, w, asWritten, g);
      } else {
        var out := Outcome(files, trawlDir, cb, p, w, asWritten);
        IngestAllPaired(files, trawlDir, cb, prods, matches, w, asWritten);
        if g in out.0 {
          OutcomeNoRevive(files, trawlDir, cb, p, w, asWritten, g);
        } else if out.1.Ingested? {
          IngestAllNoNew(out.0, trawlDir, cb, prods[1..], matches, w, asWritten, g);
        } else {
          JoinEndsWithName(PathJoin(trawlDir, out.1.failure.bucket.value), FAILED_TOKEN, FAILED_TOKEN);
        }
      }
    }
  }

  /** A failed token is never an RDB file. */
  lemma RdbNotToken(g: string)
    requires EndsWith(g, ".rdb")
    ensures !EndsWith(g, FAILED_TOKEN)
  {
    assert g[|g| - 1] == 'b';
  }

  /** Both files of an RDB product end with .rdb. */
  lemma RefsAreRdb(p: string, f: string)
    requires f in Refs(p)
    ensures EndsWith(f, ".rdb")
  {
    if f == p + ".rdb" {
      assert f[|f| - 4..] == ".rdb";
    } else {
      assert f == p + ".full.rdb";
      assert f[|f| - 4..] == ".rdb";
    }
  }

  /** One step of the ingest loop on a product with both files. */
  lemma IngestAllPaired(files: map<string, string>, trawlDir: string, cb: string, prods: seq<string>, matches: seq<string>,
                        w: World, asWritten: bool)
    requires prods != [] && Paired(prods[0], matches)
    ensures var out := Outcome(files, trawlDir, cb, prods[0], w, asWritten);
      var r := IngestAll(files, trawlDir, cb, prods, matches, w, asWritten);
      match out.1
      case Ingested(met) =>
        var rest := IngestAll(out.0, trawlDir, cb, prods[1..], matches, w, asWritten);
        r == Pass(rest.files, [met] + rest.ingested, rest.error)
      case Raised(fail) =>
        r == if fail.bucket.Some? then Pass(WithFailedToken(out.0, PathJoin(trawlDir, fail.bucket.value), Some(fail.msg)), [], None)
             else Pass(out.0, [], Some(fail.msg))
  {
  }

  /** The ingest loop takes a file from the staging area only when it is one
      of the listed RDB files and the store reported its whole size, and as
      written it takes none; every file it keeps is unchanged. */
  lemma {:induction false} IngestAllRemoves(files: map<string, string>, trawlDir: string, cb: string, prods: seq<string>, matches: seq<string>,
                                            w: World, asWritten: bool, f: string)
    requires f in files
    ensures var r := IngestAll(files, trawlDir, cb, prods, matches, w, asWritten).files;
      (f in r ==> r[f] == files[f]) &&
      (f !in r ==> !asWritten && f in matches && f in w.sent && w.sent[f] == |files[f]|)
    decreases |prods|
  {
    if prods != [] {
      var p := prods[0];
      if !Paired(p, matches) {
        IngestAllRemoves(files, trawlDir, cb, prods[1..], matches, w, asWritten, f);
      } else {
        var out := Outcome(files, trawlDir, cb, p, w, asWritten);
        var f1, o := out.0, out.1;
        OutcomeRemoves(files, trawlDir, cb, p, w, asWritten, f);
        var r := IngestAll(files, trawlDir, cb, prods, matches, w, asWritten).files;
        IngestAllPaired(files, trawlDir, cb, prods, matches, w, asWritten);
        if f in f1 {
          if o.Ingested? {
            IngestAllRemoves(f1, trawlDir, cb, prods[1..], matches, w, asWritten, f);
          }
        } else {
          assert f in Refs(p);
          RefsAreRdb(p, f);
          RdbNotToken(f);
          if o.Ingested? {
            if f in r {
              IngestAllNoNew(f1, trawlDir, cb, prods[1..], matches, w, asWritten, f);
            }
          } else if o.failure.bucket.Some? {
            JoinEndsWithName(PathJoin(trawlDir, o.failure.bucket.value), FAILED_TOKEN, FAILED_TOKEN);
          }
        }
      }
    }
  }

  /** Every record the ingest loop stores is RECEIVED at the trawl's time,
      and as written it stores none. */
  lemma {:induction false} IngestAllRecords(files: map<string, string>, trawlDir: string, cb: string, prods: seq<string>, matches: seq<string>,
                                            w: World, asWritten: bool)
    ensures var r := IngestAll(files, trawlDir, cb, prods, matches, w, asWritten).ingested;
      (asWritten ==> r == []) &&
      forall m :: m in r ==> STATUS in m && m[STATUS] == Text(RECEIVED) && RECEIVED_TIME in m && m[RECEIVED_TIME] == Text(w.now)
    decreases |prods|
  {
    if prods != [] {
      var p := prods[0];
      if !Paired(p, matches) {
        IngestAllRecords(files, trawlDir, cb, prods[1..], matches, w, asWritten);
      } else {
        var (f1, o) := Outcome(files, trawlDir, cb, p, w, asWritten);
        if o.Ingested? {
          IngestAllRecords(f1, trawlDir, cb, prods[1..], matches, w, asWritten);
          IngestedReceived(files, trawlDir, cb, p, w, asWritten);
        }
      }
    }
  }

  /** A record one ingest stores is RECEIVED at the trawl's time, and as
      written there is none. */
  lemma IngestedReceived(files: map<string, string>, trawlDir: string, cb: string, p: string, w: World, asWritten: bool)
    requires Outcome(files, trawlDir, cb, p, w, asWritten).1.Ingested?
    ensures var m := Outcome(files, trawlDir, cb, p, w, asWritten).1.met;
      !asWritten && STATUS in m && m[STATUS] == Text(RECEIVED) && RECEIVED_TIME in m && m[RECEIVED_TIME] == Text(w.now)
  {
    IngestAsWrittenFails(files, trawlDir, cb, p, w);
    var env := w.products(p);
    IngestProductMet(files, trawlDir, cb, p, w);
    IngestMetReceived(env.existing, RelPath(p, cb), env.extraction.value.0, Refs(p), env.extraction.value.1,
                      SizesOf(files, w.dirSizes), w.guessed, UploadSpec(files, Refs(p), trawlDir, w.cpus, w.sent).urls, w.now);
  }

  /** As written, the loop reaches the first paired product and, when its
      extraction succeeds and its record is not RECEIVED, ends with the
      AttributeError of set_product_transferring, storing nothing and leaving
      the staging area as it was; trawl then re-raises it. */
  lemma {:induction false} IngestAllAsWrittenRaises(files: map<string, string>, trawlDir: string, cb: string, prods: seq<string>, matches: seq<string>,
                                                    w: World, i: nat)
    requires i < |prods| && Paired(prods[i], matches)
    requires forall j :: 0 <= j < i ==> !Paired(prods[j], matches)
    requires w.products(prods[i]).extraction.Ok?
    requires IngestStart(w.products(prods[i]).existing, RelPath(prods[i], cb), w.products(prods[i]).extraction.value.0).Ok?
    ensures IngestAll(files, trawlDir, cb, prods, matches, w, true) == Pass(files, [], Some(NO_TRANSFERRING))
    decreases i
  {
    if i > 0 {
      assert !Paired(prods[0], matches);
      IngestAllAsWrittenRaises(files, trawlDir, cb, prods[1..], matches, w, i - 1);
    }
  }

  function WalkOf(walks: map<string, seq<WalkEntry>>, dir: string): seq<WalkEntry>
  {
    if dir in walks then walks[dir] else []
  }

  /** One capture block directory. */
  function BlockStep(files: map<string, string>, trawlDir: string, cb: string, w: World, asWritten: bool): Pass
  {
    var sc := Listing(files, cb, WalkOf(w.walks, cb), ".rdb", ".writing.rdb");
    if sc.complete && sc.matches == [] then Pass(WithoutTree(files, cb), [], None)
    else if sc.matches != [] then IngestAll(files, trawlDir, cb, RdbProducts(sc.matches), sc.matches, w, asWritten)
    else Pass(files, [], None)
  }

  /** A directory whose walk, on its own, reports the complete token and no
      wanted file: the only kind list_trawl_files can call finished. */
  predicate WalkFinished(walks: map<string, seq<WalkEntry>>, d: string, fileExt: string, writeExt: string)
  {
    var sc := Classify(WalkOf(walks, d), fileExt, writeExt, COMPLETE_TOKEN);
    sc.complete && sc.matches == []
  }

  /** A capture block step takes a file from the staging area only when the
      block is finished and the file lies below it, or, in the corrected
      ingest, when the file is one of the block's RDB files and the store
      reported its whole size; every file it keeps is unchanged. */
  lemma BlockStepRemoves(files: map<string, string>, trawlDir: string, cb: string, w: World, asWritten: bool, f: string)
    requires f in files
    ensures var r := BlockStep(files, trawlDir, cb, w, asWritten).files;
      (f in r ==> r[f] == files[f]) &&
      (f !in r ==> ((StartsWith(f, cb + "/") && WalkFinished(w.walks, cb, ".rdb", ".writing.rdb")) ||
        (!asWritten && EndsWith(f, ".rdb") && f in w.sent && w.sent[f] == |files[f]|)))
  {
    var sc := Listing(files, cb, WalkOf(w.walks, cb), ".rdb", ".writing.rdb");
    if !(sc.complete && sc.matches == []) && sc.matches != [] {
      IngestAllRemoves(files, trawlDir, cb, RdbProducts(sc.matches), sc.matches, w, asWritten, f);
      if f !in BlockStep(files, trawlDir, cb, w, asWritten).files {
        MatchesHaveExt(WalkOf(w.walks, cb), ".rdb", ".writing.rdb", f);
      }
    }
  }

  /** The capture blocks in order; an exception ends the pass. */
  function BlockPhase(files: map<string, string>, trawlDir: string, cbs: seq<string>, w: World, asWritten: bool): Pass
    decreases |cbs|
  {
    if cbs == [] then Pass(files, [], None)
    else
      var s := BlockStep(files, trawlDir, cbs[0], w, asWritten);
      if s.error.Some? then s
      else
        var rest := BlockPhase(s.files, trawlDir, cbs[1..], w, asWritten);
        Pass(rest.files, s.ingested + rest.ingested, rest.error)
  }

  /** One step of the capture block phase. */
  lemma BlockPhaseUnfold(files: map<string, string>, trawlDir: string, cbs: seq<string>, w: World, asWritten: bool)
    requires cbs != []
    ensures var s := BlockStep(files, trawlDir, cbs[0], w, asWritten);
      BlockPhase(files, trawlDir, cbs, w, asWritten) ==
        if s.error.Some? then s
        else
          var rest := BlockPhase(s.files, trawlDir, cbs[1..], w, asWritten);
          Pass(rest.files, s.ingested + rest.ingested, rest.error)
  {
  }

  /** The block phase, given what its first step returned. */
  lemma BlockPhaseAfterStep(files: map<string, string>, trawlDir: string, cbs: seq<string>, w: World, asWritten: bool,
                            files2: map<string, string>, more: seq<Met>, err: Option<string>)
    requires cbs != [] && BlockStep(files, trawlDir, cbs[0], w, asWritten) == Pass(files2, more, err)
    ensures BlockPhase(files, trawlDir, cbs, w, asWritten) ==
      if err.Some? then Pass(files2, more, err)
      else
        var rest := BlockPhase(files2, trawlDir, cbs[1..], w, asWritten);
        Pass(rest.files, more + rest.ingested, rest.error)
  {
    BlockPhaseUnfold(files, trawlDir, cbs, w, asWritten);
  }

  /** One more capture block handled without an exception: the phase over
      all of cbs is still what the rest of the blocks leave, after the
      records so far. */
  lemma BlockLoopStep(files0: map<string, string>, trawlDir: string, cbs: seq<string>, j: nat, w: World, asWritten: bool,
                      files: map<string, string>, ingested: seq<Met>, files2: map<string, string>, more: seq<Met>)
    requires j < |cbs|
    requires var rest := BlockPhase(files, trawlDir, cbs[j..], w, asWritten);
      BlockPhase(files0, trawlDir, cbs, w, asWritten) == Pass(rest.files, ingested + rest.ingested, rest.error)
    requires BlockStep(files, trawlDir, cbs[j], w, asWritten) == Pass(files2, more, None)
    ensures var rest := BlockPhase(files2, trawlDir, cbs[j + 1..], w, asWritten);
      BlockPhase(files0, trawlDir, cbs, w, asWritten) == Pass(rest.files, (ingested + more) + rest.ingested, rest.error)
  {
    assert cbs[j..][1..] == cbs[j + 1..];
    BlockPhaseAfterStep(files, trawlDir, cbs[j..], w, asWritten, files2, more, None);
    AppendAssoc(ingested, more, BlockPhase(files2, trawlDir, cbs[j + 1..], w, asWritten).ingested);
  }

  /** The only files a capture block step adds are failed tokens. */
  lemma BlockStepNoNew(files: map<string, string>, trawlDir: string, cb: string, w: World, asWritten: bool, g: string)
    requires g in BlockStep(files, trawlDir, cb, w, asWritten).files && g !in files
    ensures EndsWith(g, FAILED_TOKEN)
  {
    var sc := Listing(files, cb, WalkOf(w.walks, cb), ".rdb", ".writing.rdb");
    if !(sc.complete && sc.matches == []) && sc.matches != [] {
      IngestAllNoNew(files, trawlDir, cb, RdbProducts(sc.matches), sc.matches, w, asWritten, g);
    }
  }

  /** The only files the capture blocks add are failed tokens. */
  lemma {:induction false} BlockPhaseNoNew(files: map<string, string>, trawlDir: string, cbs: seq<string>, w: World, asWritten: bool, g: string)
    requires g in BlockPhase(files, trawlDir, cbs, w, asWritten).files && g !in files
    ensures EndsWith(g, FAILED_TOKEN)
    decreases |cbs|
  {
    if cbs != [] {
      var s := BlockStep(files, trawlDir, cbs[0], w, asWritten);
      if g in s.files {
        BlockStepNoNew(files, trawlDir, cbs[0], w, asWritten, g);
      } else {
        BlockPhaseNoNew(s.files, trawlDir, cbs[1..], w, asWritten, g);
      }
    }
  }

  /** The capture blocks take a file from the staging area only when it lies
      below a finished capture block, or, in the corrected ingest, when it is
      an RDB file the store reported whole.  A file they keep is unchanged,
      unless it is a failed token written again into a directory removed
      earlier in the pass. */
  lemma {:induction false} BlockPhaseRemoves(files: map<string, string>, trawlDir: string, cbs: seq<string>, w: World, asWritten: bool, f: string)
    requires f in files
    ensures var r := BlockPhase(files, trawlDir, cbs, w, asWritten).files;
      (f in r ==> r[f] == files[f] || EndsWith(f, FAILED_TOKEN)) &&
      (f !in r ==> ((exists cb :: cb in cbs && StartsWith(f, cb + "/") && WalkFinished(w.walks, cb, ".rdb", ".writing.rdb")) ||
        (!asWritten && EndsWith(f, ".rdb") && f in w.sent && w.sent[f] == |files[f]|)))
    decreases |cbs|
  {
    if cbs != [] {
      BlockStepRemoves(files, trawlDir, cbs[0], w, asWritten, f);
      var s := BlockStep(files, trawlDir, cbs[0], w, asWritten);
      var r := BlockPhase(files, trawlDir, cbs, w, asWritten).files;
      if s.error.None? {
        assert r == BlockPhase(s.files, trawlDir, cbs[1..], w, asWritten).files;
        if f in s.files {
          BlockPhaseRemoves(s.files, trawlDir, cbs[1..], w, asWritten, f);
          if f !in r && !(!asWritten && EndsWith(f, ".rdb") && f in w.sent && w.sent[f] == |files[f]|) {
            var cb :| cb in cbs[1..] && StartsWith(f, cb + "/") && WalkFinished(w.walks, cb, ".rdb", ".writing.rdb");
            assert cb in cbs;
          }
        } else if f in r {
          BlockPhaseNoNew(s.files, trawlDir, cbs[1..], w, asWritten, f);
        }
      }
    }
  }

  /** Every record the capture blocks store is RECEIVED at the trawl's
      time, and as written there are none. */
  lemma {:induction false} BlockPhaseRecords(files: map<string, string>, trawlDir: string, cbs: seq<string>, w: World, asWritten: bool)
    ensures var r := BlockPhase(files, trawlDir, cbs, w, asWritten).ingested;
      (asWritten ==> r == []) &&
      forall m :: m in r ==> STATUS in m && m[STATUS] == Text(RECEIVED) && RECEIVED_TIME in m && m[RECEIVED_TIME] == Text(w.now)
    decreases |cbs|
  {
    if cbs != [] {
      var cb := cbs[0];
      var sc := Listing(files, cb, WalkOf(w.walks, cb), ".rdb", ".writing.rdb");
      if !(sc.complete && sc.matches == []) && sc.matches != [] {
        IngestAllRecords(files, trawlDir, cb, RdbProducts(sc.matches), sc.matches, w, asWritten);
      }
      var s := BlockStep(files, trawlDir, cb, w, asWritten);
      if s.error.None? {
        BlockPhaseRecords(s.files, trawlDir, cbs[1..], w, asWritten);
      }
    }
  }

  // ---- capture streams ----

  /** One capture stream directory: removed when finished and empty, and
      otherwise contributing its .npy files to the upload list. */
  function StreamStep(files: map<string, string>, cs: string, walks: map<string, seq<WalkEntry>>): (map<string, string>, seq<string>)
  {
    var sc := Listing(files, cs, WalkOf(walks, cs), ".npy", ".writing.npy");
    if sc.complete && sc.matches == [] then (WithoutTree(files, cs), [])
    else (files, sc.matches)
  }

  function StreamPhase(files: map<string, string>, css: seq<string>, walks: map<string, seq<WalkEntry>>): (map<string, string>, seq<string>)
    decreases |css|
  {
    if css == [] then (files, [])
    else
      var (f1, l1) := StreamStep(files, css[0], walks);
      var (f2, l2) := StreamPhase(f1, css[1..], walks);
      (f2, l1 + l2)
  }

  /** The stream phase, given what its first step returned. */
  lemma StreamPhaseAfterStep(files: map<string, string>, css: seq<string>, walks: map<string, seq<WalkEntry>>,
                             files2: map<string, string>, more: seq<string>)
    requires css != [] && StreamStep(files, css[0], walks) == (files2, more)
    ensures StreamPhase(files, css, walks) ==
      (StreamPhase(files2, css[1..], walks).0, more + StreamPhase(files2, css[1..], walks).1)
  {
  }

  /** One more capture stream handled: the phase over all of css is still
      the files left by the rest of the streams and the queued files so
      far followed by theirs. */
  lemma StreamLoopStep(files0: map<string, string>, css: seq<string>, j: nat, walks: map<string, seq<WalkEntry>>,
                       files: map<string, string>, uploads: seq<string>, files2: map<string, string>, more: seq<string>)
    requires j < |css|
    requires StreamPhase(files0, css, walks) ==
      (StreamPhase(files, css[j..], walks).0, uploads + StreamPhase(files, css[j..], walks).1)
    requires StreamStep(files, css[j], walks) == (files2, more)
    ensures StreamPhase(files0, css, walks) ==
      (StreamPhase(files2, css[j + 1..], walks).0, (uploads + more) + StreamPhase(files2, css[j + 1..], walks).1)
  {
    assert css[j..][1..] == css[j + 1..];
    StreamPhaseAfterStep(files, css[j..], walks, files2, more);
    AppendAssoc(uploads, more, StreamPhase(files2, css[j + 1..], walks).1);
  }

  /** Every file queued for upload is a .npy file found by a walk. */
  lemma {:induction false} StreamPhaseNpy(files: map<string, string>, css: seq<string>, walks: map<string, seq<WalkEntry>>, x: string)
    requires x in StreamPhase(files, css, walks).1
    ensures EndsWith(x, ".npy")
    decreases |css|
  {
    var (f1, l1) := StreamStep(files, css[0], walks);
    if x in l1 {
      MatchesHaveExt(WalkOf(walks, css[0]), ".npy", ".writing.npy", x);
    } else {
      StreamPhaseNpy(f1, css[1..], walks, x);
    }
  }

  /** The capture streams never bring back a file. */
  lemma {:induction false} StreamPhaseNoRevive(files: map<string, string>, css: seq<string>, walks: map<string, seq<WalkEntry>>, g: string)
    requires g in StreamPhase(files, css, walks).0
    ensures g in files
    decreases |css|
  {
    if css != [] {
      var (f1, l1) := StreamStep(files, css[0], walks);
      StreamPhaseNoRevive(f1, css[1..], walks, g);
    }
  }

  /** The capture streams take a file from the staging area only when it
      lies below a finished stream; every file they keep is unchanged. */
  lemma {:induction false} StreamPhaseRemoves(files: map<string, string>, css: seq<string>, walks: map<string, seq<WalkEntry>>, f: string)
    requires f in files
    ensures var r := StreamPhase(files, css, walks).0;
      (f in r ==> r[f] == files[f]) &&
      (f !in r ==> exists cs :: cs in css && StartsWith(f, cs + "/") && WalkFinished(walks, cs, ".npy", ".writing.npy"))
    decreases |css|
  {
    if css != [] {
      var (f1, l1) := StreamStep(files, css[0], walks);
      if f !in f1 && f in StreamPhase(files, css, walks).0 {
        StreamPhaseNoRevive(f1, css[1..], walks, f);
      }
      if f in f1 {
        StreamPhaseRemoves(f1, css[1..], walks, f);
        if f !in StreamPhase(files, css, walks).0 {
          var cs :| cs in css[1..] && StartsWith(f, cs + "/") && WalkFinished(walks, cs, ".npy", ".writing.npy");
          assert cs in css;
        }
      }
    }
  }

  // ---- trawl ----

  function Truncate(xs: seq<string>, n: nat): (r: seq<string>)
    ensures |r| <= n && StartsWith2(xs, r)
    ensures |xs| <= n ==> r == xs
  {
    xs[..if |xs| < n then |xs| else n]
  }

  predicate StartsWith2(xs: seq<string>, r: seq<string>)
  {
    |r| <= |xs| && xs[..|r|] == r
  }

  /** The result of one trawl: the staging area it leaves, the records it
      ingested, and the upload size it returns or the exception that ended it. */
  datatype TrawlResult = TrawlResult(files: map<string, string>, ingested: seq<Met>, result: Result<nat>)

  /** The batch upload that ends trawl: nothing when the queued files that
      still exist add up to no bytes; otherwise the parallel upload, whose
      failed workers are dropped, since no exception of transfer_files
      carries a bucket name for a failed token.  The size is what trawl
      returns. */
  function UploadPhase(files: map<string, string>, trawlDir: string, uploads: seq<string>, w: World, ingested: seq<Met>): TrawlResult
  {
    var size := UploadSize(uploads, files);
    if size == 0 then TrawlResult(files, ingested, Ok(0))
    else match ProdHandler.UploadSlices(uploads, w.cpus)
      case Err(e) => TrawlResult(files, ingested, Err(e))
      case Ok(slices) => TrawlResult(TransferSlices(files, slices, trawlDir, w.sent).files, ingested, Ok(size))
  }

  /** The upload takes from the staging area only queued files that the
      store reported whole; every file it keeps is unchanged. */
  lemma UploadPhaseRemoves(files: map<string, string>, trawlDir: string, uploads: seq<string>, w: World, ingested: seq<Met>, f: string)
    requires f in files
    ensures var r := UploadPhase(files, trawlDir, uploads, w, ingested).files;
      (f in r ==> r[f] == files[f]) &&
      (f !in r ==> f in uploads && f in w.sent && w.sent[f] == |files[f]|)
  {
    var split := ProdHandler.UploadSlices(uploads, w.cpus);
    if UploadSize(uploads, files) != 0 && split.Ok? {
      SlicesDeleteOnlyComplete(files, split.value, trawlDir, w.sent, f);
      if f !in UploadPhase(files, trawlDir, uploads, w, ingested).files {
        var k :| 0 <= k < |split.value| && f in split.value[k];
        Slicing.SlicesCover(uploads, ProdHandler.Workers(|uploads|, w.cpus), f);
      }
    }
  }

  /** trawl: the capture blocks in sorted order, then the capture streams in
      sorted order, then the upload of at most MAX_TRANSFERS queued files. */
  function TrawlSpec(files: map<string, string>, trawlDir: string, subDirs: seq<string>, w: World, asWritten: bool): TrawlResult
  {
    var (cbs, css) := ListTrawlDir(trawlDir, subDirs);
    var b := BlockPhase(files, trawlDir, Sort(cbs), w, asWritten);
    if b.error.Some? then TrawlResult(b.files, b.ingested, Err(b.error.value))
    else StreamsAndUpload(b.files, trawlDir, Sort(css), w, b.ingested)
  }

  /** The second half of trawl: the capture streams in the given order, then
      the upload of at most MAX_TRANSFERS queued files. */
  function StreamsAndUpload(files: map<string, string>, trawlDir: string, css: seq<string>, w: World, ingested: seq<Met>): TrawlResult
  {
    var (f2, queued) := StreamPhase(files, css, w.walks);
    UploadPhase(f2, trawlDir, Truncate(queued, MAX_TRANSFERS), w, ingested)
  }

  /** The capture streams and the upload take a file only when it lies below
      a finished capture stream or is a queued .npy file the store reported
      whole; they never bring a file back, and what they keep is unchanged. */
  lemma StreamsAndUploadRemoves(files: map<string, string>, trawlDir: string, css: seq<string>, w: World, ingested: seq<Met>, f: string)
    ensures var r := StreamsAndUpload(files, trawlDir, css, w, ingested).files;
      (f in r ==> f in files && r[f] == files[f]) &&
      (f in files && f !in r ==>
        (exists d :: d in css && StartsWith(f, d + "/") && WalkFinished(w.walks, d, ".npy", ".writing.npy")) ||
        (f in w.sent && w.sent[f] == |files[f]| && EndsWith(f, ".npy")))
  {
    var (f2, queued) := StreamPhase(files, css, w.walks);
    var ul := Truncate(queued, MAX_TRANSFERS);
    var r := StreamsAndUpload(files, trawlDir, css, w, ingested).files;
    assert r == UploadPhase(f2, trawlDir, ul, w, ingested).files;
    if f in r {
      UploadPhaseNoRevive(f2, trawlDir, ul, w, ingested, f);
      StreamPhaseNoRevive(files, css, w.walks, f);
    }
    if f in files {
      StreamPhaseRemoves(files, css, w.walks, f);
      if f in f2 {
        UploadPhaseRemoves(f2, trawlDir, ul, w, ingested, f);
        if f !in r {
          var j :| 0 <= j < |ul| && ul[j] == f;
          TrawlUploads(files, css, w.walks, j);
        }
      }
    }
  }

  /** At most MAX_TRANSFERS files are queued for the upload, all of them .npy files. */
  lemma TrawlUploads(files: map<string, string>, css: seq<string>, walks: map<string, seq<WalkEntry>>, j: nat)
    ensures var ul := Truncate(StreamPhase(files, css, walks).1, MAX_TRANSFERS);
      |ul| <= MAX_TRANSFERS && (j < |ul| ==> EndsWith(ul[j], ".npy"))
  {
    var uploads := StreamPhase(files, css, walks).1;
    var ul := Truncate(uploads, MAX_TRANSFERS);
    if j < |ul| {
      assert ul[j] == uploads[j];
      StreamPhaseNpy(files, css, walks, ul[j]);
    }
  }

  lemma InSorted(s: seq<string>, x: string)
    requires x in Sort(s)
    ensures x in s
  {
    assert x in multiset(Sort(s));
  }

  /** The upload never brings back a file. */
  lemma UploadPhaseNoRevive(files: map<string, string>, trawlDir: string, uploads: seq<string>, w: World, ingested: seq<Met>, g: string)
    requires g in UploadPhase(files, trawlDir, uploads, w, ingested).files
    ensures g in files
  {
    var split := ProdHandler.UploadSlices(uploads, w.cpus);
    if UploadSize(uploads, files) != 0 && split.Ok? {
      TransferSlicesNoRevive(files, split.value, trawlDir, w.sent, g);
    }
  }

  /** Deletion only after a whole upload, over a whole trawl: a file leaves
      the staging area only when it lies below a finished capture block or
      capture stream, or when the store reported its whole size, and then it
      is a queued .npy file or, in the corrected ingest, an RDB file.  As
      written no RDB file is ever uploaded.  A file that stays keeps its
      contents, unless it is a failed token written again. */
  lemma TrawlRemoves(files: map<string, string>, trawlDir: string, subDirs: seq<string>, w: World, asWritten: bool, f: string)
    requires f in files
    ensures var r := TrawlSpec(files, trawlDir, subDirs, w, asWritten).files;
      var (cbs, css) := ListTrawlDir(trawlDir, subDirs);
      (f in r ==> r[f] == files[f] || EndsWith(f, FAILED_TOKEN)) &&
      (f !in r ==> (
        (exists d :: d in cbs && StartsWith(f, d + "/") && WalkFinished(w.walks, d, ".rdb", ".writing.rdb")) ||
        (exists d :: d in css && StartsWith(f, d + "/") && WalkFinished(w.walks, d, ".npy", ".writing.npy")) ||
        (f in w.sent && w.sent[f] == |files[f]| && (EndsWith(f, ".npy") || (!asWritten && EndsWith(f, ".rdb"))))))
  {
    var (cbs, css) := ListTrawlDir(trawlDir, subDirs);
    var b := BlockPhase(files, trawlDir, Sort(cbs), w, asWritten);
    TrawlSpecFiles(files, trawlDir, subDirs, w, asWritten);
    BlockPhaseRemoves(files, trawlDir, Sort(cbs), w, asWritten, f);
    if f !in b.files {
      BlockRemovedWhy(files, trawlDir, cbs, w, asWritten, f);
      if b.error.None? {
        StreamsAndUploadRemoves(b.files, trawlDir, Sort(css), w, b.ingested, f);
      }
    } else if b.error.None? {
      StreamsRemovedWhy(b.files, trawlDir, css, w, b.ingested, f);
      if EndsWith(f, ".npy") {
        NpyNotToken(f);
      }
    }
  }

  /** What trawl leaves in the staging area: the capture blocks' files when
      they stop on an error, otherwise what the capture streams and the
      upload leave of them. */
  lemma TrawlSpecFiles(files: map<string, string>, trawlDir: string, subDirs: seq<string>, w: World, asWritten: bool)
    ensures var b := BlockPhase(files, trawlDir, Sort(ListTrawlDir(trawlDir, subDirs).0), w, asWritten);
      TrawlSpec(files, trawlDir, subDirs, w, asWritten).files ==
        if b.error.Some? then b.files
        else StreamsAndUpload(b.files, trawlDir, Sort(ListTrawlDir(trawlDir, subDirs).1), w, b.ingested).files
  {
  }

  /** StreamsAndUploadRemoves over the capture streams as listed rather than
      in sorted order. */
  lemma StreamsRemovedWhy(files: map<string, string>, trawlDir: string, css: seq<string>, w: World, ingested: seq<Met>, f: string)
    requires f in files
    ensures var r := StreamsAndUpload(files, trawlDir, Sort(css), w, ingested).files;
      (f in r ==> r[f] == files[f]) &&
      (f !in r ==>
        (exists d :: d in css && StartsWith(f, d + "/") && WalkFinished(w.walks, d, ".npy", ".writing.npy")) ||
        (f in w.sent && w.sent[f] == |files[f]| && EndsWith(f, ".npy")))
  {
    StreamsAndUploadRemoves(files, trawlDir, Sort(css), w, ingested, f);
    var r := StreamsAndUpload(files, trawlDir, Sort(css), w, ingested).files;
    if f !in r && !(f in w.sent && w.sent[f] == |files[f]| && EndsWith(f, ".npy")) {
      var d :| d in Sort(css) && StartsWith(f, d + "/") && WalkFinished(w.walks, d, ".npy", ".writing.npy");
      InSorted(css, d);
    }
  }

  /** A failed token is never a .npy file. */
  lemma NpyNotToken(g: string)
    requires EndsWith(g, ".npy")
    ensures !EndsWith(g, FAILED_TOKEN)
  {
    assert g[|g| - 1] == 'y';
  }

  /** Why the capture blocks removed a file, stated over the unsorted list. */
  lemma BlockRemovedWhy(files: map<string, string>, trawlDir: string, cbs: seq<string>, w: World, asWritten: bool, f: string)
    requires f in files && f !in BlockPhase(files, trawlDir, Sort(cbs), w, asWritten).files
    ensures (exists d :: d in cbs && StartsWith(f, d + "/") && WalkFinished(w.walks, d, ".rdb", ".writing.rdb")) ||
      (!asWritten && EndsWith(f, ".rdb") && f in w.sent && w.sent[f] == |files[f]|)
  {
    BlockPhaseRemoves(files, trawlDir, Sort(cbs), w, asWritten, f);
    if !(!asWritten && EndsWith(f, ".rdb") && f in w.sent && w.sent[f] == |files[f]|) {
      var d :| d in Sort(cbs) && StartsWith(f, d + "/") && WalkFinished(w.walks, d, ".rdb", ".writing.rdb");
      InSorted(cbs, d);
    }
  }

  /** Every record a trawl stores is RECEIVED at the trawl's time, and as
      written a trawl stores none. */
  lemma TrawlRecords(files: map<string, string>, trawlDir: string, subDirs: seq<string>, w: World, asWritten: bool)
    ensures var r := TrawlSpec(files, trawlDir, subDirs, w, asWritten).ingested;
      (asWritten ==> r == []) &&
      forall m :: m in r ==> STATUS in m && m[STATUS] == Text(RECEIVED) && RECEIVED_TIME in m && m[RECEIVED_TIME] == Text(w.now)
  {
    var (cbs, css) := ListTrawlDir(trawlDir, subDirs);
    var b := BlockPhase(files, trawlDir, Sort(cbs), w, asWritten);
    BlockPhaseRecords(files, trawlDir, Sort(cbs), w, asWritten);
    if b.error.None? {
      var (f2, queued) := StreamPhase(b.files, Sort(css), w.walks);
      assert StreamsAndUpload(b.files, trawlDir, Sort(css), w, b.ingested).ingested
        == UploadPhase(f2, trawlDir, Truncate(queued, MAX_TRANSFERS), w, b.ingested).ingested == b.ingested;
    }
    assert TrawlSpec(files, trawlDir, subDirs, w, asWritten).ingested == b.ingested;
  }

  // ---- the trawl on the staging area ----

  /** parallel_upload on the staging area: the slices are sent one after the
      other, the URLs gathered in slice order, and the first exception is
      the one reported. */
  method ParallelUpload(fs: FileSystem, trawlDir: string, fileList: seq<string>, cpus: nat, sent: map<string, int>)
    returns (r: Result<seq<string>>)
    modifies fs
    ensures var t := UploadSpec(old(fs.files), fileList, trawlDir, cpus, sent);
      fs.files == t.files && (if t.failure.Some? then r == Err(t.failure.value) else r == Ok(t.urls))
  {
    var split := ProdHandler.UploadSlices(fileList, cpus);
    if split.Err? {
      return Err(split.error);
    }
    var slices := split.value;
    ghost var files0 := fs.files;
    var urls: seq<string> := [];
    var failure: Option<string> := None;
    var i := 0;
    while i < |slices|
      invariant 0 <= i <= |slices|
      invariant TransferSlices(files0, slices[..i], trawlDir, sent) == Transfer(fs.files, urls, failure)
    {
      TransferSlicesStep(files0, slices, i, trawlDir, sent);
      var res := fs.TransferFiles(trawlDir, slices[i], sent);
      if res.Err? {
        if failure.None? {
          failure := Some(res.error);
        }
      } else {
        urls := urls + res.value;
      }
      i := i + 1;
    }
    assert slices[..i] == slices;
    r := if failure.Some? then Err(failure.value) else Ok(urls);
  }

  /** ingest_vis_product on the staging area, corrected as IngestProduct is. */
  method IngestVisProduct(fs: FileSystem, trawlDir: string, cb: string, p: string, w: World) returns (o: Ingest)
    modifies fs
    ensures (fs.files, o) == IngestProduct(old(fs.files), trawlDir, cb, p, w)
  {
    ghost var prep := PreUpload(fs.files, trawlDir, cb, p, w);
    assert IngestProduct(fs.files, trawlDir, cb, p, w) == AfterPrep(prep, fs.files, trawlDir, p, w);
    var refs := Refs(p);
    var bucket := BucketOf(refs[0], trawlDir);
    var env := w.products(p);
    if env.extraction.Err? {
      assert prep == Stop(Failure(env.extraction.error, Some(bucket)));
      return Raised(Failure(env.extraction.error, Some(bucket)));
    }
    var productType, extracted := env.extraction.value.0, env.extraction.value.1;
    var start := IngestStart(env.existing, RelPath(p, cb), productType);
    if start.Err? {
      assert prep == Stop(Failure(start.error, Some(bucket)));
      return Raised(Failure(start.error, Some(bucket)));
    }
    var prepared := Prepared(start.value, refs, extracted, SizesOf(fs.files, w.dirSizes), w.guessed);
    if prepared.Err? {
      assert prep == Stop(Failure(prepared.error, None));
      return Raised(Failure(prepared.error, None));
    }
    assert prep == Go(prepared.value);
    var urls := ParallelUpload(fs, trawlDir, refs, w.cpus, w.sent);
    if urls.Err? {
      return Raised(Failure(urls.error, None));
    }
    o := Ingested(Finished(prepared.value, urls.value, w.now));
  }

  /** The ingest loop of one capture block, on the staging area. */
  method IngestProducts(fs: FileSystem, trawlDir: string, cb: string, prods: seq<string>, matches: seq<string>, w: World)
    returns (ingested: seq<Met>, error: Option<string>)
    modifies fs
    ensures IngestAll(old(fs.files), trawlDir, cb, prods, matches, w, false) == Pass(fs.files, ingested, error)
  {
    ingested, error := [], None;
    var i := 0;
    while i < |prods|
      invariant 0 <= i <= |prods|
      invariant var rest := IngestAll(fs.files, trawlDir, cb, prods[i..], matches, w, false);
        IngestAll(old(fs.files), trawlDir, cb, prods, matches, w, false) == Pass(rest.files, ingested + rest.ingested, rest.error)
    {
      assert prods[i..][1..] == prods[i + 1..];
      var p := prods[i];
      if Paired(p, matches) {
        var o := IngestVisProduct(fs, trawlDir, cb, p, w);
        if o.Raised? {
          if o.failure.bucket.Some? {
            fs.SetFailedToken(PathJoin(trawlDir, o.failure.bucket.value), Some(o.failure.msg));
          } else {
            error := Some(o.failure.msg);
          }
          assert ingested + [] == ingested;
          return;
        }
        assert ingested + ([o.met] + IngestAll(fs.files, trawlDir, cb, prods[i + 1..], matches, w, false).ingested)
          == (ingested + [o.met]) + IngestAll(fs.files, trawlDir, cb, prods[i + 1..], matches, w, false).ingested;
        ingested := ingested + [o.met];
      }
      i := i + 1;
    }
    assert ingested + [] == ingested;
  }

  /** One capture block directory, on the staging area. */
  method HandleBlock(fs: FileSystem, trawlDir: string, cb: string, w: World)
    returns (ingested: seq<Met>, error: Option<string>)
    modifies fs
    ensures BlockStep(old(fs.files), trawlDir, cb, w, false) == Pass(fs.files, ingested, error)
  {
    var matches, complete := ListTrawlFiles(fs.files, cb, WalkOf(w.walks, cb), ".rdb", ".writing.rdb");
    ingested, error := [], None;
    if complete && |matches| == 0 {
      fs.RemoveTree(cb);
    } else if |matches| >= 1 {
      ingested, error := IngestProducts(fs, trawlDir, cb, RdbProducts(matches), matches, w);
    }
  }

  /** One capture stream directory, on the staging area: returns its files to upload. */
  method HandleStream(fs: FileSystem, cs: string, walks: map<string, seq<WalkEntry>>)
    returns (uploads: seq<string>)
    modifies fs
    ensures (fs.files, uploads) == StreamStep(old(fs.files), cs, walks)
  {
    var matches, complete := ListTrawlFiles(fs.files, cs, WalkOf(walks, cs), ".npy", ".writing.npy");
    uploads := [];
    if complete && |matches| == 0 {
      fs.RemoveTree(cs);
    } else if |matches| >= 1 {
      uploads := matches;
    }
  }

  /** The capture blocks, in the given order; an exception ends the pass. */
  method HandleBlocks(fs: FileSystem, trawlDir: string, cbs: seq<string>, w: World)
    returns (ingested: seq<Met>, error: Option<string>)
    modifies fs
    ensures BlockPhase(old(fs.files), trawlDir, cbs, w, false) == Pass(fs.files, ingested, error)
  {
    ingested, error := [], None;
    var i := 0;
    while i < |cbs|
      invariant 0 <= i <= |cbs|
      invariant var rest := BlockPhase(fs.files, trawlDir, cbs[i..], w, false);
        BlockPhase(old(fs.files), trawlDir, cbs, w, false) == Pass(rest.files, ingested + rest.ingested, rest.error)
    {
      ghost var before := fs.files;
      var more, err := HandleBlock(fs, trawlDir, cbs[i], w);
      if err.Some? {
        BlockPhaseAfterStep(before, trawlDir, cbs[i..], w, false, fs.files, more, err);
        ingested := ingested + more;
        error := err;
        return;
      }
      BlockLoopStep(old(fs.files), trawlDir, cbs, i, w, false, before, ingested, fs.files, more);
      ingested := ingested + more;
      i := i + 1;
    }
    assert ingested + [] == ingested;
  }

  /** The capture streams, in the given order: the files left and the upload list. */
  method HandleStreams(fs: FileSystem, css: seq<string>, walks: map<string, seq<WalkEntry>>)
    returns (uploads: seq<string>)
    modifies fs
    ensures (fs.files, uploads) == StreamPhase(old(fs.files), css, walks)
  {
    uploads := [];
    var j := 0;
    assert css[j..] == css;
    assert uploads + StreamPhase(fs.files, css, walks).1 == StreamPhase(fs.files, css, walks).1;
    while j < |css|
      invariant 0 <= j <= |css|
      invariant StreamPhase(old(fs.files), css, walks) ==
        (StreamPhase(fs.files, css[j..], walks).0, uploads + StreamPhase(fs.files, css[j..], walks).1)
    {
      ghost var before := fs.files;
      var more := HandleStream(fs, css[j], walks);
      StreamLoopStep(old(fs.files), css, j, walks, before, uploads, fs.files, more);
      uploads := uploads + more;
      j := j + 1;
    }
    assert css[j..] == [];
    assert StreamPhase(fs.files, css[j..], walks) == (fs.files, []);
    assert uploads + [] == uploads;
  }

  /** trawl, with the corrected ingest: the capture blocks, the capture
      streams, then the batch upload; returns the records ingested and the
      upload size, or the exception that ended the pass. */
  method Trawl(fs: FileSystem, trawlDir: string, subDirs: seq<string>, w: World)
    returns (ingested: seq<Met>, r: Result<nat>)
    modifies fs
    ensures TrawlSpec(old(fs.files), trawlDir, subDirs, w, false) == TrawlResult(fs.files, ingested, r)
  {
    var (cbs, css) := ListTrawlDir(trawlDir, subDirs);
    var error;
    ingested, error := HandleBlocks(fs, trawlDir, Sort(cbs), w);
    if error.Some? {
      return ingested, Err(error.value);
    }
    var queued := HandleStreams(fs, Sort(css), w.walks);
    var uploads := Truncate(queued, MAX_TRANSFERS);
    var size := UploadSize(uploads, fs.files);
    if size > 0 {
      var split := ProdHandler.UploadSlices(uploads, w.cpus);
      if split.Err? {
        return ingested, Err(split.error);
      }
      var _ := ParallelUpload(fs, trawlDir, uploads, w.cpus, w.sent);
    }
    r := Ok(size);
  }

  // ---- s3_create_bucket ----

  const VALID_ACLS := ["private", "public-read", "public-read-write", "authenticated-read"]

  /** The ACL s3_create_bucket sets: the one asked for when it is valid,
      'private' otherwise. */
  function EffectiveAcl(acl: string): (r: string)
    ensures r in VALID_ACLS
    ensures r == acl <==> acl in VALID_ACLS
    ensures acl !in VALID_ACLS ==> r == "private"
  {
    if acl in VALID_ACLS then acl else "private"
  }

  // ---- the record an ingest stores ----

  /** The record a successful ingest stores is RECEIVED at the given time
      and its datastore references are exactly the uploaded files and their
      common prefix. */
  lemma IngestMetReceived(existing: Met, prodId: string, productType: string, refs: seq<string>,
                          extracted: Met, fileSizes: map<string, nat>, guessed: map<string, string>,
                          transferred: seq<string>, now: string)
    requires refs != []
    requires IngestMet(existing, prodId, productType, refs, extracted, fileSizes, guessed, transferred, now).Ok?
    ensures var m := IngestMet(existing, prodId, productType, refs, extracted, fileSizes, guessed, transferred, now).value;
      STATUS in m && RECEIVED_TIME in m && REF_DATASTORE in m &&
      m[STATUS] == Text(RECEIVED) && m[RECEIVED_TIME] == Text(now) &&
      m[REF_DATASTORE].Texts? &&
      multiset(m[REF_DATASTORE].items) == multiset([Dirname(CommonPrefix(transferred))] + transferred)
  {
    var met := IngestStart(existing, prodId, productType).value;
    var met3 := Prepared(met, refs, extracted, fileSizes, guessed).value;
    var met4 := RefDatastoreMet(met3, [Dirname(CommonPrefix(transferred))] + transferred);
    assert IngestMet(existing, prodId, productType, refs, extracted, fileSizes, guessed, transferred, now).value
      == Finished(met3, transferred, now) == ReceivedMet(met4, now);
    assert REF_DATASTORE in met4 && REF_DATASTORE != STATUS && REF_DATASTORE != RECEIVED_TIME;
  }

  /** A stored record is hierarchical unless the extracted metadata names a
      structure, and keeps every other field of the record the extracted
      metadata does not set. */
  lemma StoredKeeps(met: Met, refs: seq<string>, extracted: Met, fileSizes: map<string, nat>, guessed: map<string, string>,
                    transferred: seq<string>, now: string, k: string)
    requires refs != []
    requires Stored(met, refs, extracted, fileSizes, guessed, transferred, now).Ok?
    ensures var m := Stored(met, refs, extracted, fileSizes, guessed, transferred, now).value;
      (STRUCTURE !in extracted ==> STRUCTURE in m && m[STRUCTURE] == Text("Hierarchical")) &&
      (k in met && k !in extracted && k !in {STATUS, RECEIVED_TIME, STRUCTURE, REF_ORIGINAL, REF_SIZE, REF_MIME, REF_DATASTORE} ==>
        k in m && m[k] == met[k])
  {
    if STRUCTURE !in extracted {
      StoredStructure(met, refs, extracted, fileSizes, guessed, transferred, now);
    }
    if k in met && k !in extracted && k !in {STATUS, RECEIVED_TIME, STRUCTURE, REF_ORIGINAL, REF_SIZE, REF_MIME, REF_DATASTORE} {
      StoredKey(met, refs, extracted, fileSizes, guessed, transferred, now, k);
    }
  }

  /** The first half keeps every key it does not write itself. */
  lemma PreparedKeeps(met: Met, refs: seq<string>, extracted: Met, fileSizes: map<string, nat>, guessed: map<string, string>,
                      k: string)
    requires refs != []
    requires Prepared(met, refs, extracted, fileSizes, guessed).Ok?
    requires k in met && k !in extracted
    requires k != STATUS && k != STRUCTURE && k != REF_ORIGINAL && k != REF_SIZE && k != REF_MIME
    ensures var m := Prepared(met, refs, extracted, fileSizes, guessed).value;
      k in m && m[k] == met[k]
  {
    var met1 := met[STATUS := Text("TRANSFERRING")];
    var met2 := RefOriginalMet(met1, [Dirname(CommonPrefix(refs))] + refs, fileSizes, guessed).value;
    assert met2[k] == met1[k] == met[k];
  }

  /** The first half writes the structure, and the product metadata keeps it
      when it names none. */
  lemma PreparedStructure(met: Met, refs: seq<string>, extracted: Met, fileSizes: map<string, nat>, guessed: map<string, string>)
    requires refs != []
    requires Prepared(met, refs, extracted, fileSizes, guessed).Ok?
    requires STRUCTURE !in extracted
    ensures var m := Prepared(met, refs, extracted, fileSizes, guessed).value;
      STRUCTURE in m && m[STRUCTURE] == Text("Hierarchical")
  {
    var all := [Dirname(CommonPrefix(refs))] + refs;
    assert |all| != 1;
  }

  /** The second half keeps every key but the datastore references and the
      RECEIVED status and time. */
  lemma FinishedKeeps(met: Met, transferred: seq<string>, now: string, k: string)
    requires k in met && k != REF_DATASTORE && k != STATUS && k != RECEIVED_TIME
    ensures k in Finished(met, transferred, now) && Finished(met, transferred, now)[k] == met[k]
  {
  }

  lemma StoredStructure(met: Met, refs: seq<string>, extracted: Met, fileSizes: map<string, nat>, guessed: map<string, string>,
                        transferred: seq<string>, now: string)
    requires refs != []
    requires Stored(met, refs, extracted, fileSizes, guessed, transferred, now).Ok?
    requires STRUCTURE !in extracted
    ensures var m := Stored(met, refs, extracted, fileSizes, guessed, transferred, now).value;
      STRUCTURE in m && m[STRUCTURE] == Text("Hierarchical")
  {
    var met3 := Prepared(met, refs, extracted, fileSizes, guessed).value;
    PreparedStructure(met, refs, extracted, fileSizes, guessed);
    assert STRUCTURE != REF_DATASTORE && STRUCTURE != STATUS && STRUCTURE != RECEIVED_TIME;
    FinishedKeeps(met3, transferred, now, STRUCTURE);
  }

  lemma StoredKey(met: Met, refs: seq<string>, extracted: Met, fileSizes: map<string, nat>, guessed: map<string, string>,
                  transferred: seq<string>, now: string, k: string)
    requires refs != []
    requires Stored(met, refs, extracted, fileSizes, guessed, transferred, now).Ok?
    requires k in met && k !in extracted
    requires k != STATUS && k != RECEIVED_TIME && k != STRUCTURE && k != REF_ORIGINAL && k != REF_SIZE && k != REF_MIME &&
      k != REF_DATASTORE
    ensures var m := Stored(met, refs, extracted, fileSizes, guessed, transferred, now).value;
      k in m && m[k] == met[k]
  {
    var met3 := Prepared(met, refs, extracted, fileSizes, guessed).value;
    PreparedKeeps(met, refs, extracted, fileSizes, guessed, k);
    FinishedKeeps(met3, transferred, now, k);
  }

  /** A successful ingest records a hierarchical product unless the extracted
      metadata names a structure, and a new record keeps the product id unless
      the extracted metadata sets one. */
  lemma IngestMetStructure(existing: Met, prodId: string, productType: string, refs: seq<string>,
                           extracted: Met, fileSizes: map<string, nat>, guessed: map<string, string>,
                           transferred: seq<string>, now: string)
    requires refs != []
    requires IngestMet(existing, prodId, productType, refs, extracted, fileSizes, guessed, transferred, now).Ok?
    ensures var m := IngestMet(existing, prodId, productType, refs, extracted, fileSizes, guessed, transferred, now).value;
      (STRUCTURE !in extracted ==> STRUCTURE in m && m[STRUCTURE] == Text("Hierarchical")) &&
      (existing == map[] && ID !in extracted ==> ID in m && m[ID] == Text(prodId))
  {
    var met := IngestStart(existing, prodId, productType).value;
    assert IngestMet(existing, prodId, productType, refs, extracted, fileSizes, guessed, transferred, now)
      == Stored(met, refs, extracted, fileSizes, guessed, transferred, now);
    StoredKeeps(met, refs, extracted, fileSizes, guessed, transferred, now, ID);
  }

  /** The answers of the outside world for the counterexample below: one
      fresh product, whose extraction succeeds, with two files the store
      reports whole. */
  function ExampleWorld(): World
  {
    World(map[], _ => ProductEnv(Ok(("MeerKATTelescopeProduct", map[])), map[]),
          map["/t/b" := 4096], map[], map["/t/b/p.rdb" := 1, "/t/b/p.full.rdb" := 2], 1, "now")
  }

  /** A fresh product whose two RDB files upload whole: the ingest as written
      raises AttributeError and keeps both files. */
  lemma IngestCounterexample()
    ensures IngestProductAsWritten(map["/t/b/p.rdb" := "a", "/t/b/p.full.rdb" := "bb"], "/t", "/t/b", "/t/b/p", ExampleWorld())
      == (map["/t/b/p.rdb" := "a", "/t/b/p.full.rdb" := "bb"], Raised(Failure(NO_TRANSFERRING, None)))
  {
    var w := ExampleWorld();
    var start := IngestStart(map[], RelPath("/t/b/p", "/t/b"), "MeerKATTelescopeProduct");
    assert start.Ok?;
  }
}
