// The older telescope-product extractors (KAT7, RTS, MeerKAT AR1 and the
// tape product) and their factory, which classifies a katdal dataset by the
// subarray product id stored in its TelescopeState attributes.  They share
// the run-once MetExtractor of the newer module, and write the product type
// under ProductType only.

module LegacyMetExtractors {
  import opened Wrappers
  import opened Strs
  import opened Metadata
  import opened MetExtractors

  datatype LegacyKind = LegacyKat7 | LegacyRts | LegacyAr1 | LegacyTape

  function LegacyTypeOf(k: LegacyKind): string
  {
    match k
    case LegacyKat7 => "KAT7TelescopeProduct"
    case LegacyRts => "RTSTelescopeProduct"
    case LegacyAr1 => "MeerKATAR1TelescopeProduct"
    case LegacyTape => "MeerkatTelescopeTapeProduct"
  }

  const AR1_SUBARRAY := "rts_c856M4k"
  const BAD_CREATION := "MetExtractorException: Bad met extractor creation."

  /** TelescopeProductMetExtractor.factory: `telescopeId` is the
      subarray_product_id attribute (None when the attribute is missing,
      which raises KeyError inside the try), `subArray` the dataset's
      sub_array_product_id. */
  function LegacyFactory(telescopeId: Option<string>, subArray: string, antNames: seq<string>): (r: Result<LegacyKind>)
    ensures telescopeId == Some(AR1_SUBARRAY) ==> r == Ok(LegacyAr1)
    ensures telescopeId.Some? && telescopeId.value != AR1_SUBARRAY ==>
      (subArray == "RTS" ==> r == Ok(LegacyRts)) &&
      (subArray == "KAT7" ==> r == Ok(LegacyKat7)) &&
      (subArray != "RTS" && subArray != "KAT7" ==> r == Err(BAD_CREATION))
    ensures telescopeId.None? ==>
      (antNames == [] ==> r.Err?) &&
      (antNames != [] && StartsWith(antNames[0], "ant") ==> r == Ok(LegacyKat7)) &&
      (antNames != [] && !StartsWith(antNames[0], "ant") ==> r == Ok(LegacyRts))
  {
    if telescopeId.Some? then
      if telescopeId.value == AR1_SUBARRAY then Ok(LegacyAr1)
      else if subArray == "RTS" then Ok(LegacyRts)
      else if subArray == "KAT7" then Ok(LegacyKat7)
      else Err(BAD_CREATION)
    else if antNames == [] then Err("IndexError: list index out of range")
    else if StartsWith(antNames[0], "ant") then Ok(LegacyKat7)
    else Ok(LegacyRts)
  }

  /** The factory never builds the tape extractor, and it builds the AR1
      extractor exactly for the AR1 subarray. */
  lemma LegacyFactoryKinds(telescopeId: Option<string>, subArray: string, antNames: seq<string>)
    ensures LegacyFactory(telescopeId, subArray, antNames) != Ok(LegacyTape)
    ensures LegacyFactory(telescopeId, subArray, antNames) == Ok(LegacyAr1) <==> telescopeId == Some(AR1_SUBARRAY)
  {
  }

  /** KatpointTargets: list(set(...)) of the targets' str() with 'tags='
      removed, leaving out those named None or Nothing; the order the set
      gives is not modelled. */
  function LegacyKatpointTargets(ts: seq<Target>): (r: seq<string>)
    ensures NoDup(r)
    ensures forall x :: x in r <==> exists i :: 0 <= i < |ts| && ts[i].name !in NO_TARGETS && Replace(ts[i].text, "tags=", "") == x
  {
    Dedup(TargetTexts(ts))
  }

  function TargetTexts(ts: seq<Target>): (r: seq<string>)
    ensures forall x :: x in r <==> exists i :: 0 <= i < |ts| && ts[i].name !in NO_TARGETS && Replace(ts[i].text, "tags=", "") == x
  {
    if ts == [] then []
    else
      var init := ts[..|ts| - 1];
      var t := ts[|ts| - 1];
      assert forall i :: 0 <= i < |init| ==> init[i] == ts[i];
      assert forall i :: 0 <= i < |ts| ==> i < |init| || ts[i] == t;
      TargetTexts(init) + (if t.name !in NO_TARGETS then [Replace(t.text, "tags=", "")] else [])
  }

  /** Targets: list(set(...)) of the names, leaving out None, Nothing, azel
      and radec. */
  function LegacyTargetNames(ts: seq<Target>): (r: seq<string>)
    ensures NoDup(r)
    ensures forall x :: x in r <==> x !in NO_TARGET_NAMES && exists i :: 0 <= i < |ts| && ts[i].name == x
  {
    Dedup(TargetNames(ts))
  }

  /** The katdal values assigned before and after InstructionSet. */
  const EARLY_KEYS: set<string> := {"CenterFrequency", "ChannelWidth", "Description", "Details", "DumpPeriod",
    "Duration", "ExperimentID", "FileSize"}
  const LATE_KEYS: set<string> := {"KatfileVersion", "NumFreqChannels", "Observer", "RefAntenna", "StartTime"}

  /** _extract_metadata_from_katdata: the values up to FileSize, then the
      instruction set, whose two parameters are read without a default (a
      missing one raises KeyError, naming the first missing), then the
      rest. */
  function LegacyKatdataSteps(kd: KatData): (r: seq<Step>)
    ensures |r| == 3 && r[0].Merge? && r[2].Merge?
    ensures r[1].Merge? <==> InstructionSet(kd.obsParams).Some?
    ensures r[1].Merge? ==> r[1].fields == map["InstructionSet" := Text(InstructionSet(kd.obsParams).value)]
  {
    var params := kd.obsParams;
    [Merge(Update(map["Antennas" := Texts(kd.antNames)], Restrict(kd.derived, EARLY_KEYS))),
     if "script_name" !in params then Raise("KeyError: 'script_name'")
     else if "script_arguments" !in params then Raise("KeyError: 'script_arguments'")
     else Merge(map["InstructionSet" := Text(InstructionSet(params).value)]),
     Merge(Update(Restrict(kd.derived, LATE_KEYS),
       map["KatpointTargets" := Texts(LegacyKatpointTargets(kd.targets)), "Targets" := Texts(LegacyTargetNames(kd.targets))]))]
  }

  const DIGEST_MISSING := "KeyError: 'FileDigest'"

  /** _extract_metadata_file_digest: the digest when md5sum reported no
      error; the message printed afterwards reads FileDigest, so a failed
      digest raises KeyError. */
  function LegacyDigestSteps(digest: Option<string>): (r: seq<Step>)
  {
    [Merge(DigestMet(digest)), RequireKey("FileDigest", DIGEST_MISSING)]
  }

  const REPOSITORY_PATH := "/var/kat/data"

  /** What the extractors of each kind call ahead of the digest (the tape
      extractor computes none); `telescopeId` is the subarray_product_id
      attribute and `bufferDir` the buffer_dir sensor the tape extractor
      reads. */
  function LegacyHead(k: LegacyKind, kd: KatData, telescopeId: Option<string>, bufferDir: string): seq<Step>
  {
    [Merge(map[PRODUCT_TYPE := Text(LegacyTypeOf(k))])] + LegacyHeadRest(k, kd, telescopeId, bufferDir)
  }

  /** The steps that follow the product type in the head. */
  function LegacyHeadRest(k: LegacyKind, kd: KatData, telescopeId: Option<string>, bufferDir: string): seq<Step>
  {
    match k
    case LegacyKat7 => LegacyKatdataSteps(kd)
    case LegacyRts => LegacyKatdataSteps(kd) + [Merge(RtsReductionMet(kd.obsParams))]
    case LegacyAr1 =>
      [if telescopeId.Some? then Merge(map["SubarrayProductId" := Text(telescopeId.value)])
       else Raise("KeyError: 'subarray_product_id'")] + LegacyKatdataSteps(kd)
    case LegacyTape =>
      LegacyKatdataSteps(kd) + [Merge(map["TapeBufferDirectory" := Text(RelPath(bufferDir, REPOSITORY_PATH))])]
  }

  /** Each kind's extract_metadata; `digest` is the md5sum result. */
  function LegacySteps(k: LegacyKind, kd: KatData, telescopeId: Option<string>, digest: Option<string>,
                       bufferDir: string): seq<Step>
  {
    LegacyHead(k, kd, telescopeId, bufferDir) + if k.LegacyTape? then [] else LegacyDigestSteps(digest)
  }

  /** The extractor of a kind: the met file is the absolute path of the
      dataset's file plus '.met'. */
  method NewLegacyExtractor(k: LegacyKind, kd: KatData, cwd: string, telescopeId: Option<string>,
                            digest: Option<string>, bufferDir: string) returns (e: MetExtractor)
    ensures fresh(e)
    ensures e.metadataFilename == AbsPath(cwd, kd.fileName) + ".met" && e.productType == Some(LegacyTypeOf(k))
    ensures e.steps == LegacySteps(k, kd, telescopeId, digest, bufferDir) && e.guarded
    ensures e.metadata == map[] && !e.extracted
  {
    e := new MetExtractor(AbsPath(cwd, kd.fileName) + ".met", Some(LegacyTypeOf(k)),
                          LegacySteps(k, kd, telescopeId, digest, bufferDir), true);
  }

  /** The steps of any kind begin with the product type and then, for
      every kind but the AR1 one, the katdata steps; stepping over the
      merges ahead of a raise gives its error. */
  lemma {:induction false} RunStopsAt(steps: seq<Step>, j: nat, met: Met)
    requires j < |steps| && steps[j].Raise?
    requires forall i :: 0 <= i < j ==> steps[i].Merge?
    ensures Run(steps, met).1 == Some(steps[j].error)
  {
    if j > 0 {
      assert forall i :: 0 <= i < j - 1 ==> steps[1..][i] == steps[i + 1];
      assert steps[0].Merge?;
      RunStopsAt(steps[1..], j - 1, Update(met, steps[0].fields));
    }
  }

  /** Without both script parameters every legacy extraction raises
      KeyError, so the extracted flag stays unset whatever the kind. */
  lemma LegacyNeedsInstructionSet(k: LegacyKind, kd: KatData, telescopeId: Option<string>, digest: Option<string>,
                                  bufferDir: string, s: State)
    requires InstructionSet(kd.obsParams).None? && !s.extracted
    requires k.LegacyAr1? ==> telescopeId.Some?
    ensures var (s', r) := ExtractOnce(s, LegacySteps(k, kd, telescopeId, digest, bufferDir), true);
      !s'.extracted &&
      r == Err(if "script_name" !in kd.obsParams then "KeyError: 'script_name'" else "KeyError: 'script_arguments'")
  {
    var steps := LegacySteps(k, kd, telescopeId, digest, bufferDir);
    var ks := LegacyKatdataSteps(kd);
    var j := if k.LegacyAr1? then 3 else 2;
    assert steps[j] == ks[1] && steps[j - 1] == ks[0];
    assert forall i :: 0 <= i < j ==> steps[i].Merge?;
    RunStopsAt(steps, j, s.metadata);
  }

  /** With the instruction set and the attribute present, every step ahead
      of the digest is a merge, and none writes FileDigest. */
  lemma HeadLacksDigest(k: LegacyKind, kd: KatData, telescopeId: Option<string>, bufferDir: string, i: nat)
    requires InstructionSet(kd.obsParams).Some? && (k.LegacyAr1? ==> telescopeId.Some?)
    requires i < |LegacyHead(k, kd, telescopeId, bufferDir)|
    ensures LegacyHead(k, kd, telescopeId, bufferDir)[i].Merge?
    ensures "FileDigest" !in LegacyHead(k, kd, telescopeId, bufferDir)[i].fields
  {
    if i > 0 {
      RestLacksDigest(k, kd, telescopeId, bufferDir, i - 1);
    }
  }

  /** The same for the steps after the product type. */
  lemma RestLacksDigest(k: LegacyKind, kd: KatData, telescopeId: Option<string>, bufferDir: string, j: nat)
    requires InstructionSet(kd.obsParams).Some? && (k.LegacyAr1? ==> telescopeId.Some?)
    requires j < |LegacyHeadRest(k, kd, telescopeId, bufferDir)|
    ensures LegacyHeadRest(k, kd, telescopeId, bufferDir)[j].Merge?
    ensures "FileDigest" !in LegacyHeadRest(k, kd, telescopeId, bufferDir)[j].fields
  {
    match k
    case LegacyKat7 => KatdataLacksDigest(kd, j);
    case LegacyRts => if j < 3 { KatdataLacksDigest(kd, j); }
    case LegacyAr1 => if j > 0 { KatdataLacksDigest(kd, j - 1); }
    case LegacyTape => if j < 3 { KatdataLacksDigest(kd, j); }
  }

  /** With the parameters present, each of the three katdata steps is a merge
      without FileDigest. */
  lemma KatdataLacksDigest(kd: KatData, j: nat)
    requires InstructionSet(kd.obsParams).Some? && j < 3
    ensures LegacyKatdataSteps(kd)[j].Merge? && "FileDigest" !in LegacyKatdataSteps(kd)[j].fields
  {
    DigestNotCopied();
    var r := LegacyKatdataSteps(kd);
    if j == 0 {
      assert r[0].fields.Keys == {"Antennas"} + kd.derived.Keys * EARLY_KEYS;
    } else if j == 2 {
      assert r[2].fields.Keys == kd.derived.Keys * LATE_KEYS + {"KatpointTargets", "Targets"};
    }
  }

  /** FileDigest is none of the values copied from the katdata file. */
  lemma DigestNotCopied()
    ensures "FileDigest" !in EARLY_KEYS && "FileDigest" !in LATE_KEYS
  {
    assert "FileDigest"[0] == 'F' && "FileDigest"[1] == 'i';
  }

  /** Merges that do not write FileDigest, then the digest steps. */
  lemma DigestAfterMerges(head: seq<Step>, digest: Option<string>)
    requires forall i :: 0 <= i < |head| ==> head[i].Merge? && "FileDigest" !in head[i].fields
    ensures var (m, e) := Run(head + LegacyDigestSteps(digest), map[]);
      (e.None? <==> digest.Some?) &&
      (digest.Some? ==> "FileDigest" in m && m["FileDigest"] == Text(digest.value)) &&
      (digest.None? ==> e == Some(DIGEST_MISSING))
  {
    RunMergesThen(head, LegacyDigestSteps(digest), map[]);
    FieldsMissing(head, "FileDigest");
    DigestTail(Update(map[], Fields(head)), digest);
  }

  /** The digest steps on a record without FileDigest. */
  lemma DigestTail(m0: Met, digest: Option<string>)
    requires "FileDigest" !in m0
    ensures var (m, e) := Run(LegacyDigestSteps(digest), m0);
      (e.None? <==> digest.Some?) &&
      (digest.Some? ==> "FileDigest" in m && m["FileDigest"] == Text(digest.value)) &&
      (digest.None? ==> e == Some(DIGEST_MISSING))
  {
    var tail := LegacyDigestSteps(digest);
    var m1 := Update(m0, DigestMet(digest));
    var req := RequireKey("FileDigest", DIGEST_MISSING);
    assert tail == [Merge(DigestMet(digest)), req] && [Merge(DigestMet(digest)), req][1..] == [req];
    assert Run(tail, m0) == Run([req], m1);
    assert [req][1..] == [];
    if digest.Some? {
      assert "FileDigest" in m1 && m1["FileDigest"] == Text(digest.value);
      assert Run([req], m1) == Run([], m1);
    } else {
      assert m1 == m0;
      assert Run([req], m1) == (m1, Some(DIGEST_MISSING));
    }
  }

  /** With the instruction set present, a KAT7, RTS or AR1 extraction
      succeeds exactly when md5sum gave a digest, which it then records;
      otherwise it raises KeyError on FileDigest. */
  lemma LegacyDigestRequired(k: LegacyKind, kd: KatData, telescopeId: Option<string>, digest: Option<string>,
                             bufferDir: string)
    requires !k.LegacyTape? && InstructionSet(kd.obsParams).Some? && (k.LegacyAr1? ==> telescopeId.Some?)
    ensures var (m, e) := Run(LegacySteps(k, kd, telescopeId, digest, bufferDir), map[]);
      (e.None? <==> digest.Some?) &&
      (digest.Some? ==> "FileDigest" in m && m["FileDigest"] == Text(digest.value)) &&
      (digest.None? ==> e == Some(DIGEST_MISSING))
  {
    var head := LegacyHead(k, kd, telescopeId, bufferDir);
    forall i | 0 <= i < |head|
      ensures head[i].Merge? && "FileDigest" !in head[i].fields
    {
      HeadLacksDigest(k, kd, telescopeId, bufferDir, i);
    }
    DigestAfterMerges(head, digest);
  }

  /** No merge among the steps writes either product type key. */
  predicate LacksType(steps: seq<Step>)
  {
    forall i :: 0 <= i < |steps| && steps[i].Merge? ==>
      PRODUCT_TYPE !in steps[i].fields && CAS_PRODUCT_TYPE !in steps[i].fields
  }

  lemma LacksTypeConcat(a: seq<Step>, b: seq<Step>)
    requires LacksType(a) && LacksType(b)
    ensures LacksType(a + b)
  {
    assert forall i :: 0 <= i < |a + b| ==> (a + b)[i] == if i < |a| then a[i] else b[i - |a|];
  }

  lemma KatdataLacksType(kd: KatData)
    ensures LacksType(LegacyKatdataSteps(kd))
  {
    var ks := LegacyKatdataSteps(kd);
    assert PRODUCT_TYPE !in EARLY_KEYS && PRODUCT_TYPE !in LATE_KEYS;
    assert CAS_PRODUCT_TYPE !in EARLY_KEYS && CAS_PRODUCT_TYPE !in LATE_KEYS;
    assert PRODUCT_TYPE !in ks[0].fields && CAS_PRODUCT_TYPE !in ks[0].fields;
    assert PRODUCT_TYPE !in ks[2].fields && CAS_PRODUCT_TYPE !in ks[2].fields;
  }

  /** No step after the first writes either product type key. */
  lemma LaterStepsLackType(k: LegacyKind, kd: KatData, telescopeId: Option<string>, digest: Option<string>,
                           bufferDir: string)
    ensures LacksType(LegacySteps(k, kd, telescopeId, digest, bufferDir)[1..])
  {
    var ds := if k.LegacyTape? then [] else LegacyDigestSteps(digest);
    HeadRestLacksType(k, kd, telescopeId, bufferDir);
    if !k.LegacyTape? {
      DigestLacksType(digest);
    }
    LacksTypeTail(Merge(map[PRODUCT_TYPE := Text(LegacyTypeOf(k))]), LegacyHeadRest(k, kd, telescopeId, bufferDir), ds);
  }

  lemma DigestLacksType(digest: Option<string>)
    ensures LacksType(LegacyDigestSteps(digest))
  {
    var ds := LegacyDigestSteps(digest);
    assert ds[0].fields.Keys <= {"FileDigest"};
  }

  lemma LacksTypeTail(x: Step, rest: seq<Step>, ds: seq<Step>)
    requires LacksType(rest) && LacksType(ds)
    ensures LacksType((([x] + rest) + ds)[1..])
  {
    assert (([x] + rest) + ds)[1..] == rest + ds;
    LacksTypeConcat(rest, ds);
  }

  lemma HeadRestLacksType(k: LegacyKind, kd: KatData, telescopeId: Option<string>, bufferDir: string)
    ensures LacksType(LegacyHeadRest(k, kd, telescopeId, bufferDir))
  {
    var ks := LegacyKatdataSteps(kd);
    KatdataLacksType(kd);
    match k
    case LegacyKat7 =>
    case LegacyRts =>
      LacksTypeConcat(ks, [Merge(RtsReductionMet(kd.obsParams))]);
    case LegacyAr1 =>
      var sub := [if telescopeId.Some? then Merge(map["SubarrayProductId" := Text(telescopeId.value)])
                  else Raise("KeyError: 'subarray_product_id'")];
      assert LacksType(sub);
      LacksTypeConcat(sub, ks);
    case LegacyTape =>
      LacksTypeConcat(ks, [Merge(map["TapeBufferDirectory" := Text(RelPath(bufferDir, REPOSITORY_PATH))])]);
  }

  /** The older extractors write the product type under ProductType only,
      however far the extraction gets. */
  lemma LegacyProductType(k: LegacyKind, kd: KatData, telescopeId: Option<string>, digest: Option<string>,
                          bufferDir: string)
    ensures var m := Run(LegacySteps(k, kd, telescopeId, digest, bufferDir), map[]).0;
      PRODUCT_TYPE in m && m[PRODUCT_TYPE] == Text(LegacyTypeOf(k)) && CAS_PRODUCT_TYPE !in m
  {
    var steps := LegacySteps(k, kd, telescopeId, digest, bufferDir);
    var pt := map[PRODUCT_TYPE := Text(LegacyTypeOf(k))];
    assert steps[0] == Merge(pt);
    assert Run(steps, map[]) == Run(steps[1..], Update(map[], pt));
    LaterStepsLackType(k, kd, telescopeId, digest, bufferDir);
    RunKeeps(steps[1..], Update(map[], pt), PRODUCT_TYPE);
    RunLacks(steps[1..], Update(map[], pt), CAS_PRODUCT_TYPE);
  }
}
