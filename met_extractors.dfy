// Metadata extraction for telescope and reduction products.  An extractor
// holds the metadata dictionary, its file name, its product type and the
// flag that records that extraction has run.  Each kind of extractor fills
// the dictionary by a fixed sequence of extraction steps; a step adds keys,
// or raises, leaving the keys written so far in place.
//
// The katdal dataset is read through a `KatData` value: its antenna names,
// observation parameters and catalogue targets are modelled, the values
// katdal computes with floats and clocks (frequencies, times, sizes) are
// given as the opaque record `derived`, and so are the pickled sub-array
// details, the scan positions and the md5 digest.

module MetExtractors {
  import opened Wrappers
  import opened Strs
  import opened Metadata
  import opened CasXml

  // ---------------------------------------------------------------------
  // Extraction steps and the run-once extractor
  // ---------------------------------------------------------------------

  /** One step of an extraction: add `fields` (later keys win), raise, or
      read back a key, raising when it is missing. */
  datatype Step = Merge(fields: Met) | Raise(error: string) | RequireKey(key: string, error: string)

  /** The dictionary after the steps, and the exception of the step that
      raised, if one did. */
  function Run(steps: seq<Step>, met: Met): (r: (Met, Option<string>))
    ensures met.Keys <= r.0.Keys
  {
    if steps == [] then (met, None)
    else
      match steps[0]
      case Merge(f) => Run(steps[1..], Update(met, f))
      case Raise(e) => (met, Some(e))
      case RequireKey(k, e) => if k in met then Run(steps[1..], met) else (met, Some(e))
  }

  predicate AllMerges(steps: seq<Step>)
  {
    forall i :: 0 <= i < |steps| ==> steps[i].Merge?
  }

  /** The union of the fields of merge-only steps, later steps winning. */
  function Fields(steps: seq<Step>): Met
    requires AllMerges(steps)
  {
    if steps == [] then map[] else Update(steps[0].fields, Fields(steps[1..]))
  }

  /** Merge-only steps never raise and add the union of their fields. */
  lemma {:induction false} RunAllMerges(steps: seq<Step>, met: Met)
    requires AllMerges(steps)
    ensures Run(steps, met) == (Update(met, Fields(steps)), None)
  {
    if steps != [] {
      assert forall i :: 0 <= i < |steps[1..]| ==> steps[1..][i] == steps[i + 1];
      var f := steps[0].fields;
      assert steps[0] == Merge(f);
      assert Run(steps, met) == Run(steps[1..], Update(met, f));
      RunAllMerges(steps[1..], Update(met, f));
      UpdateAssoc(met, f, Fields(steps[1..]));
      assert Fields(steps) == Update(f, Fields(steps[1..]));
    } else {
      assert Update(met, map[]) == met;
    }
  }

  /** Merges ahead of other steps act as one merge of their fields. */
  lemma {:induction false} RunMergesThen(a: seq<Step>, b: seq<Step>, met: Met)
    requires AllMerges(a)
    ensures Run(a + b, met) == Run(b, Update(met, Fields(a)))
  {
    if a != [] {
      assert forall i :: 0 <= i < |a[1..]| ==> a[1..][i] == a[i + 1];
      var f := a[0].fields;
      assert (a + b)[0] == Merge(f) && (a + b)[1..] == a[1..] + b;
      RunMergesThen(a[1..], b, Update(met, f));
      UpdateAssoc(met, f, Fields(a[1..]));
    } else {
      assert a + b == b;
      assert Update(met, map[]) == met;
    }
  }

  /** A key no merge writes keeps its value, whether or not a step raises. */
  lemma {:induction false} RunKeeps(steps: seq<Step>, met: Met, k: string)
    requires k in met
    requires forall i :: 0 <= i < |steps| && steps[i].Merge? ==> k !in steps[i].fields
    ensures k in Run(steps, met).0 && Run(steps, met).0[k] == met[k]
  {
    if steps != [] {
      assert forall i :: 0 <= i < |steps[1..]| ==> steps[1..][i] == steps[i + 1];
      match steps[0]
      case Merge(f) =>
        assert steps[0].fields == f;
        RunKeeps(steps[1..], Update(met, f), k);
      case Raise(e) =>
      case RequireKey(key, e) =>
        RunKeeps(steps[1..], met, k);
    }
  }

  /** A key no merge writes stays absent. */
  lemma {:induction false} RunLacks(steps: seq<Step>, met: Met, k: string)
    requires k !in met
    requires forall i :: 0 <= i < |steps| && steps[i].Merge? ==> k !in steps[i].fields
    ensures k !in Run(steps, met).0
  {
    if steps != [] {
      assert forall i :: 0 <= i < |steps[1..]| ==> steps[1..][i] == steps[i + 1];
      match steps[0]
      case Merge(f) =>
        assert steps[0].fields == f;
        RunLacks(steps[1..], Update(met, f), k);
      case Raise(e) =>
      case RequireKey(key, e) =>
        RunLacks(steps[1..], met, k);
    }
  }

  lemma UpdateAssoc(m: Met, a: Met, b: Met)
    ensures Update(Update(m, a), b) == Update(m, Update(a, b))
  {
    var l := Update(Update(m, a), b);
    var r := Update(m, Update(a, b));
    assert l.Keys == r.Keys;
    forall k | k in l ensures l[k] == r[k] {
    }
  }

  /** The last step that sets a key decides its value. */
  lemma {:induction false} FieldsLastWins(steps: seq<Step>, j: nat, k: string)
    requires AllMerges(steps)
    requires j < |steps| && k in steps[j].fields
    requires forall i :: j < i < |steps| ==> k !in steps[i].fields
    ensures k in Fields(steps) && Fields(steps)[k] == steps[j].fields[k]
  {
    assert forall i :: 0 <= i < |steps[1..]| ==> steps[1..][i] == steps[i + 1];
    if j > 0 {
      FieldsLastWins(steps[1..], j - 1, k);
    } else {
      FieldsMissing(steps[1..], k);
    }
  }

  /** A key no step sets is not among the fields. */
  lemma {:induction false} FieldsMissing(steps: seq<Step>, k: string)
    requires AllMerges(steps)
    requires forall i :: 0 <= i < |steps| ==> k !in steps[i].fields
    ensures k !in Fields(steps)
  {
    if steps != [] {
      assert forall i :: 0 <= i < |steps[1..]| ==> steps[1..][i] == steps[i + 1];
      FieldsMissing(steps[1..], k);
    }
  }

  /** The state an extractor's extraction changes. */
  datatype State = State(metadata: Met, extracted: bool)

  /** extract_metadata: a guarded extractor does nothing once extraction has
      run (it only prints a message); otherwise the steps run, and the flag
      is set when none raised. */
  function ExtractOnce(s: State, steps: seq<Step>, guarded: bool): (r: (State, Result<()>))
    ensures guarded && s.extracted ==> r == (s, Ok(()))
    ensures r.1.Ok? ==> r.0.extracted
    ensures r.1.Err? ==> r.0.extracted == s.extracted
  {
    if guarded && s.extracted then (s, Ok(()))
    else
      var (m, e) := Run(steps, s.metadata);
      if e.Some? then (State(m, s.extracted), Err(e.value)) else (State(m, true), Ok(()))
  }

  /** Extraction runs once: after a successful run a second call changes
      nothing. */
  lemma ExtractOnceIdempotent(s: State, steps: seq<Step>)
    requires ExtractOnce(s, steps, true).1.Ok?
    ensures var s1 := ExtractOnce(s, steps, true).0;
      ExtractOnce(s1, steps, true) == (s1, Ok(()))
  {
  }

  const NOT_EXTRACTED := "MetExtractorException: No metadata extracted."

  /** MetExtractor: the base class every extractor shares. */
  class MetExtractor {
    const metadataFilename: string
    const productType: Option<string>
    /** The extraction steps of this kind of extractor. */
    const steps: seq<Step>
    /** Whether extract_metadata is behind the _metadata_extracted test. */
    const guarded: bool
    var metadata: Met
    var extracted: bool

    constructor (metadataFilename: string, productType: Option<string>, steps: seq<Step>, guarded: bool)
      ensures this.metadataFilename == metadataFilename && this.productType == productType
      ensures this.steps == steps && this.guarded == guarded
      ensures metadata == map[] && !extracted
    {
      this.metadataFilename := metadataFilename;
      this.productType := productType;
      this.steps := steps;
      this.guarded := guarded;
      metadata := map[];
      extracted := false;
    }

    /** extract_metadata, step by step. */
    method ExtractMetadata() returns (r: Result<()>)
      modifies this
      ensures (State(metadata, extracted), r) == ExtractOnce(old(State(metadata, extracted)), steps, guarded)
    {
      if guarded && extracted {
        return Ok(());
      }
      var i := 0;
      while i < |steps|
        invariant 0 <= i <= |steps|
        invariant Run(steps, old(metadata)) == Run(steps[i..], metadata)
        invariant extracted == old(extracted)
      {
        assert steps[i..][1..] == steps[i + 1..];
        match steps[i] {
          case Merge(f) =>
            metadata := Update(metadata, f);
          case Raise(e) =>
            return Err(e);
          case RequireKey(k, e) =>
            if k !in metadata {
              return Err(e);
            }
        }
        i := i + 1;
      }
      extracted := true;
      r := Ok(());
    }

    /** write_metadatafile: the file name and the cas:metadata document to
        write there; `order` is the dictionary's key order. */
    function MetadataFile(order: seq<string>): (r: Result<(string, CasMetadata)>)
      reads this
      requires forall k :: k in order <==> k in metadata
      requires NoDup(order)
      ensures !extracted ==> r == Err(NOT_EXTRACTED)
      ensures r.Ok? ==> extracted && r.value.0 == metadataFilename && ToXml(metadata, order) == Ok(r.value.1)
      ensures extracted && r.Err? ==> ToXml(metadata, order).Err?
    {
      if !extracted then Err(NOT_EXTRACTED)
      else
        var x := ToXml(metadata, order);
        if x.Err? then Err(x.error) else Ok((metadataFilename, x.value))
    }
  }

  // ---------------------------------------------------------------------
  // The katdal dataset and the extraction steps built from it
  // ---------------------------------------------------------------------

  /** A catalogue target: its name, its description and its str(). */
  datatype Target = Target(name: string, description: string, text: string)

  /** What the extractors read from a katdal dataset. */
  datatype KatData = KatData(
    fileName: string,
    antNames: seq<string>,
    obsParams: map<string, string>,
    targets: seq<Target>,
    derived: Met,
    decRa: seq<string>,
    elAz: seq<string>,
    subarray: Met,
    sourceName: string)

  const PRODUCT_TYPE := "ProductType"
  const CAS_PRODUCT_TYPE := "CAS.ProductTypeName"

  function TypeValue(pt: Option<string>): MetValue
  {
    if pt.Some? then Text(pt.value) else Null
  }

  /** _extract_metadata_product_type: the type under both keys. */
  function ProductTypeMet(pt: Option<string>): (r: Met)
    ensures r.Keys == {PRODUCT_TYPE, CAS_PRODUCT_TYPE}
    ensures r[PRODUCT_TYPE] == r[CAS_PRODUCT_TYPE] == TypeValue(pt)
  {
    map[PRODUCT_TYPE := TypeValue(pt), CAS_PRODUCT_TYPE := TypeValue(pt)]
  }

  const NO_TARGETS: set<string> := {"None", "Nothing"}
  const NO_TARGET_NAMES: set<string> := {"None", "Nothing", "azel", "radec"}

  /** KatpointTargets: the descriptions of the targets not named None or
      Nothing, in catalogue order. */
  function KatpointTargets(ts: seq<Target>): (r: seq<string>)
    ensures |r| <= |ts|
    ensures forall i :: 0 <= i < |ts| && ts[i].name !in NO_TARGETS ==> ts[i].description in r
    ensures forall x :: x in r ==> exists i :: 0 <= i < |ts| && ts[i].name !in NO_TARGETS && ts[i].description == x
  {
    if ts == [] then []
    else
      var init := ts[..|ts| - 1];
      var t := ts[|ts| - 1];
      assert forall i :: 0 <= i < |init| ==> init[i] == ts[i];
      KatpointTargets(init) + (if t.name !in NO_TARGETS then [t.description] else [])
  }

  /** Targets: the names of the targets, leaving out None, Nothing, azel and
      radec. */
  function TargetNames(ts: seq<Target>): (r: seq<string>)
    ensures |r| <= |ts|
    ensures forall x :: x in r <==> x !in NO_TARGET_NAMES && exists i :: 0 <= i < |ts| && ts[i].name == x
  {
    if ts == [] then []
    else
      var init := ts[..|ts| - 1];
      var t := ts[|ts| - 1];
      assert forall i :: 0 <= i < |init| ==> init[i] == ts[i];
      assert forall i :: 0 <= i < |ts| ==> i < |init| || ts[i] == t;
      TargetNames(init) + (if t.name !in NO_TARGET_NAMES then [t.name] else [])
  }

  /** The descriptions keep catalogue order: those of a catalogue made of
      two parts are the first part's followed by the second's. */
  lemma {:induction false} KatpointTargetsAppend(xs: seq<Target>, ys: seq<Target>)
    ensures KatpointTargets(xs + ys) == KatpointTargets(xs) + KatpointTargets(ys)
    decreases |ys|
  {
    if ys == [] {
      assert xs + ys == xs;
    } else {
      var init := ys[..|ys| - 1];
      assert (xs + ys)[..|xs + ys| - 1] == xs + init;
      KatpointTargetsAppend(xs, init);
    }
  }

  /** The names keep catalogue order in the same way. */
  lemma {:induction false} TargetNamesAppend(xs: seq<Target>, ys: seq<Target>)
    ensures TargetNames(xs + ys) == TargetNames(xs) + TargetNames(ys)
    decreases |ys|
  {
    if ys == [] {
      assert xs + ys == xs;
    } else {
      var init := ys[..|ys| - 1];
      assert (xs + ys)[..|xs + ys| - 1] == xs + init;
      TargetNamesAppend(xs, init);
    }
  }

  /** The keys katdal computes with floats, clocks and file sizes. */
  const DERIVED_KEYS: set<string> := {"CenterFrequency", "ChannelWidth", "MinFreq", "MaxFreq", "Bandwidth",
    "Description", "Details", "DumpPeriod", "Duration", "ExperimentID", "FileSize", "KatfileVersion",
    "NumFreqChannels", "Observer", "RefAntenna", "StartTime"}

  function Restrict(m: Met, keys: set<string>): (r: Met)
    ensures r.Keys == m.Keys * keys
    ensures forall k :: k in r ==> r[k] == m[k]
  {
    map k | k in m && k in keys :: m[k]
  }

  /** The instruction set, when both script keys are present (a missing key
      is ignored). */
  function InstructionSet(params: map<string, string>): (r: Option<string>)
    ensures r.Some? <==> "script_name" in params && "script_arguments" in params
    ensures r.Some? ==> r.value == params["script_name"] + " " + params["script_arguments"]
  {
    if "script_name" in params && "script_arguments" in params
    then Some(params["script_name"] + " " + params["script_arguments"])
    else None
  }

  function OptionalText(k: string, v: Option<string>): (r: Met)
    ensures v.None? ==> r == map[]
    ensures v.Some? ==> r == map[k := Text(v.value)]
  {
    if v.Some? then map[k := Text(v.value)] else map[]
  }

  /** _extract_metadata_from_katdata. */
  function KatdataMet(kd: KatData): (r: Met)
    ensures "Antennas" in r && "KatpointTargets" in r && "Targets" in r
    ensures r.Keys == (kd.derived.Keys * DERIVED_KEYS) + {"Antennas", "KatpointTargets", "Targets"} +
      (if InstructionSet(kd.obsParams).Some? then {"InstructionSet"} else {})
    ensures r["Antennas"] == Texts(kd.antNames)
    ensures r["KatpointTargets"] == Texts(KatpointTargets(kd.targets))
    ensures r["Targets"] == Texts(TargetNames(kd.targets))
    ensures "InstructionSet" in r ==> r["InstructionSet"] == Text(InstructionSet(kd.obsParams).value)
  {
    KatdataFields(kd.derived, DERIVED_KEYS, kd.antNames, KatpointTargets(kd.targets), TargetNames(kd.targets), InstructionSet(kd.obsParams))
  }

  /** The katdata record never carries a product type. */
  lemma KatdataNoType(kd: KatData)
    ensures PRODUCT_TYPE !in KatdataMet(kd) && CAS_PRODUCT_TYPE !in KatdataMet(kd)
  {
    DerivedNoType();
    var r := KatdataMet(kd);
    assert r.Keys <= DERIVED_KEYS + {"Antennas", "KatpointTargets", "Targets", "InstructionSet"};
    assert PRODUCT_TYPE !in {"Antennas", "KatpointTargets", "Targets", "InstructionSet"};
    assert CAS_PRODUCT_TYPE !in {"Antennas", "KatpointTargets", "Targets", "InstructionSet"};
  }

  lemma DerivedNoLabel()
    ensures "ReductionLabel" !in DERIVED_KEYS
  {
  }

  lemma DerivedNoType()
    ensures PRODUCT_TYPE !in DERIVED_KEYS && CAS_PRODUCT_TYPE !in DERIVED_KEYS
  {
  }

  /** The katdata record from its parts: the derived keys kept, then the
      antennas and targets, then the instruction set when there is one. */
  function KatdataFields(derived: Met, keys: set<string>, antNames: seq<string>, katpoint: seq<string>, names: seq<string>,
                         instructions: Option<string>): (r: Met)
    requires "InstructionSet" !in keys
    ensures "Antennas" in r && "KatpointTargets" in r && "Targets" in r
    ensures r.Keys == (derived.Keys * keys) + {"Antennas", "KatpointTargets", "Targets"} +
      (if instructions.Some? then {"InstructionSet"} else {})
    ensures r["Antennas"] == Texts(antNames) && r["KatpointTargets"] == Texts(katpoint) && r["Targets"] == Texts(names)
    ensures "InstructionSet" in r ==> r["InstructionSet"] == Text(instructions.value)
  {
    var fixed := map["Antennas" := Texts(antNames), "KatpointTargets" := Texts(katpoint), "Targets" := Texts(names)];
    var opt := OptionalText("InstructionSet", instructions);
    assert fixed.Keys == {"Antennas", "KatpointTargets", "Targets"};
    assert opt.Keys == if instructions.Some? then {"InstructionSet"} else {};
    Update(Update(Restrict(derived, keys), fixed), opt)
  }

  /** The parameter, when present. */
  function Param(params: map<string, string>, k: string): Option<string>
  {
    if k in params then Some(params[k]) else None
  }

  /** The parameter, when present and not empty. */
  function NonEmptyParam(params: map<string, string>, k: string): Option<string>
  {
    if k in params && params[k] != "" then Some(params[k]) else None
  }

  /** The project keys and the observation parameters they are copied from. */
  const PROJECT_PARAMS: map<string, string> := map["ProposalId" := "proposal_id", "ProgramBlockId" := "program_block_id",
    "ScheduleBlockIdCode" := "sb_id_code", "IssueId" := "issue_id", "ProposalDescription" := "proposal_description"]

  /** The two project keys that are copied only when not empty. */
  const NON_EMPTY_KEYS: set<string> := {"IssueId", "ProposalDescription"}

  function ProjectParam(params: map<string, string>, key: string): Option<string>
    requires key in PROJECT_PARAMS
  {
    if key in NON_EMPTY_KEYS then NonEmptyParam(params, PROJECT_PARAMS[key]) else Param(params, PROJECT_PARAMS[key])
  }

  /** _extract_metadata_for_project: a project key is set exactly when its
      parameter is present (and, for the issue id and the proposal
      description, not empty), to the parameter's value. */
  function ProjectMet(params: map<string, string>): (r: Met)
    ensures forall k :: k in r <==> (k in PROJECT_PARAMS && PROJECT_PARAMS[k] in params &&
      (k in NON_EMPTY_KEYS ==> params[PROJECT_PARAMS[k]] != ""))
    ensures forall k :: k in r ==> r[k] == Text(params[PROJECT_PARAMS[k]])
  {
    map k | k in PROJECT_PARAMS && ProjectParam(params, k).Some? :: Text(ProjectParam(params, k).value)
  }

  /** Nor does the project record. */
  lemma ProjectNoType(params: map<string, string>)
    ensures PRODUCT_TYPE !in ProjectMet(params) && CAS_PRODUCT_TYPE !in ProjectMet(params)
  {
    assert PROJECT_PARAMS.Keys == {"ProposalId", "ProgramBlockId", "ScheduleBlockIdCode", "IssueId", "ProposalDescription"};
  }

  /** RTS _extract_metadata_for_auto_reduction: reduction_name, default ''. */
  function RtsReductionMet(params: map<string, string>): (r: Met)
    ensures r.Keys == {"ReductionName"}
    ensures "reduction_name" in params ==> r["ReductionName"] == Text(params["reduction_name"])
    ensures "reduction_name" !in params ==> r["ReductionName"] == Text("")
  {
    map["ReductionName" := Text(if "reduction_name" in params then params["reduction_name"] else "")]
  }

  /** AR1 _extract_metadata_for_auto_reduction: reduction_label when set,
      else reduction_name when set, else no key. */
  function Ar1ReductionMet(params: map<string, string>): (r: Met)
    ensures r.Keys <= {"ReductionLabel"}
    ensures NonEmptyParam(params, "reduction_label").Some? ==> r == map["ReductionLabel" := Text(params["reduction_label"])]
    ensures NonEmptyParam(params, "reduction_label").None? && NonEmptyParam(params, "reduction_name").Some? ==>
      r == map["ReductionLabel" := Text(params["reduction_name"])]
    ensures NonEmptyParam(params, "reduction_label").None? && NonEmptyParam(params, "reduction_name").None? ==> r == map[]
  {
    var preferred := NonEmptyParam(params, "reduction_label");
    OptionalText("ReductionLabel", if preferred.Some? then preferred else NonEmptyParam(params, "reduction_name"))
  }

  /** _extract_metadata_file_digest: the digest when one was read or
      computed. */
  function DigestMet(digest: Option<string>): Met
  {
    OptionalText("FileDigest", digest)
  }

  /** _extract_location_from_katdata. */
  function LocationMet(kd: KatData): Met
  {
    map["DecRa" := Texts(kd.decRa), "ElAz" := Texts(kd.elAz)]
  }

  // ---------------------------------------------------------------------
  // The file-based telescope extractors and their factory
  // ---------------------------------------------------------------------

  datatype Kind = Kat7 | KatFile | Rts | MeerKatAr1 | PulsarSearch | PulsarTiming

  function ProductTypeOf(k: Kind): string
  {
    match k
    case Kat7 => "KAT7TelescopeProduct"
    case KatFile => "KatFile"
    case Rts => "RTSTelescopeProduct"
    case MeerKatAr1 => "MeerKATAR1TelescopeProduct"
    case PulsarSearch => "PulsarSearchProduct"
    case PulsarTiming => "PulsarTimingArchiveProduct"
  }

  /** katfile[-2:]. */
  function LastTwo(s: string): (r: string)
    ensures |r| == if |s| < 2 then |s| else 2
    ensures EndsWith(s, r)
  {
    if |s| < 2 then s else s[|s| - 2..]
  }

  /** FileBasedTelescopeProductMetExtractor.factory: by the last two
      characters; an .h5 file is opened and classified by its first antenna
      (IndexError without antennas) and its proposal id; any other suffix
      gives None. */
  function Factory(katfile: string, kd: KatData): (r: Result<Option<Kind>>)
    ensures LastTwo(katfile) == "sf" ==> r == Ok(Some(PulsarSearch))
    ensures LastTwo(katfile) == "ar" ==> r == Ok(Some(PulsarTiming))
    ensures LastTwo(katfile) !in {"sf", "ar", "h5"} ==> r == Ok(None)
    ensures LastTwo(katfile) == "h5" ==> (r.Err? <==> kd.antNames == [])
    ensures LastTwo(katfile) == "h5" && kd.antNames != [] ==>
      (StartsWith(kd.antNames[0], "ant") ==> r == Ok(Some(KatFile))) &&
      (!StartsWith(kd.antNames[0], "ant") && "proposal_id" in kd.obsParams && Contains(kd.obsParams["proposal_id"], "RTS") ==>
         r == Ok(Some(Rts))) &&
      (!StartsWith(kd.antNames[0], "ant") && !("proposal_id" in kd.obsParams && Contains(kd.obsParams["proposal_id"], "RTS")) ==>
         r == Ok(Some(MeerKatAr1)))
  {
    var ext := LastTwo(katfile);
    if ext == "sf" then Ok(Some(PulsarSearch))
    else if ext == "ar" then Ok(Some(PulsarTiming))
    else if ext == "h5" then
      if kd.antNames == [] then Err("IndexError: list index out of range")
      else if StartsWith(kd.antNames[0], "ant") then Ok(Some(KatFile))
      else if "proposal_id" in kd.obsParams && Contains(kd.obsParams["proposal_id"], "RTS") then Ok(Some(Rts))
      else Ok(Some(MeerKatAr1))
    else Ok(None)
  }

  /** The extraction helpers a telescope extractor calls. */
  datatype Part = TypePart | KatdataPart | ProjectPart | DigestPart | LocationPart
                | RtsReductionPart | Ar1ReductionPart | SubarrayPart

  /** The helpers each extract_metadata calls, in its order. */
  function TelescopeParts(k: Kind): seq<Part>
    requires !k.PulsarSearch? && !k.PulsarTiming?
  {
    match k
    case Kat7 => [TypePart, KatdataPart, ProjectPart, DigestPart, LocationPart]
    case KatFile => [TypePart, KatdataPart, ProjectPart, DigestPart, LocationPart]
    case Rts => [TypePart, KatdataPart, RtsReductionPart, DigestPart, ProjectPart, LocationPart]
    case MeerKatAr1 => [DigestPart, TypePart, KatdataPart, ProjectPart, SubarrayPart, Ar1ReductionPart, LocationPart]
  }

  /** The keys a helper can write (the pickled sub-array details are
      opaque). */
  function PartKeys(p: Part): set<string>
  {
    match p
    case TypePart => {PRODUCT_TYPE, CAS_PRODUCT_TYPE}
    case KatdataPart => DERIVED_KEYS + {"Antennas", "KatpointTargets", "Targets", "InstructionSet"}
    case ProjectPart => PROJECT_PARAMS.Keys
    case DigestPart => {"FileDigest"}
    case LocationPart => {"DecRa", "ElAz"}
    case RtsReductionPart => {"ReductionName"}
    case Ar1ReductionPart => {"ReductionLabel"}
    case SubarrayPart => {}
  }

  function PartMet(p: Part, k: Kind, kd: KatData, digest: Option<string>): (r: Met)
    ensures !p.SubarrayPart? ==> r.Keys <= PartKeys(p)
  {
    match p
    case TypePart => ProductTypeMet(Some(ProductTypeOf(k)))
    case KatdataPart => KatdataMet(kd)
    case ProjectPart => ProjectMet(kd.obsParams)
    case DigestPart => DigestMet(digest)
    case LocationPart => LocationMet(kd)
    case RtsReductionPart => RtsReductionMet(kd.obsParams)
    case Ar1ReductionPart => Ar1ReductionMet(kd.obsParams)
    case SubarrayPart => kd.subarray
  }

  function Merges(ms: seq<Met>): (r: seq<Step>)
    ensures |r| == |ms| && forall i :: 0 <= i < |ms| ==> r[i] == Merge(ms[i])
    ensures AllMerges(r)
  {
    seq(|ms|, i requires 0 <= i < |ms| => Merge(ms[i]))
  }

  /** The extraction steps of a file-based telescope extractor. */
  function TelescopeSteps(k: Kind, kd: KatData, digest: Option<string>): (r: seq<Step>)
    requires !k.PulsarSearch? && !k.PulsarTiming?
    ensures AllMerges(r) && |r| == |TelescopeParts(k)|
    ensures forall i :: 0 <= i < |r| ==> r[i].fields == PartMet(TelescopeParts(k)[i], k, kd, digest)
  {
    var parts := TelescopeParts(k);
    Merges(seq(|parts|, i requires 0 <= i < |parts| => PartMet(parts[i], k, kd, digest)))
  }

  lemma SubarrayPartMet(p: Part, k: Kind, kd: KatData, digest: Option<string>)
    requires p.SubarrayPart?
    ensures PartMet(p, k, kd, digest) == kd.subarray
  {
  }

  /** The value of a key a telescope extraction writes: that of the last
      helper that writes it. */
  lemma TelescopeKey(k: Kind, kd: KatData, digest: Option<string>, j: nat, key: string)
    requires !k.PulsarSearch? && !k.PulsarTiming?
    requires j < |TelescopeParts(k)| && key in PartMet(TelescopeParts(k)[j], k, kd, digest)
    requires forall i :: j < i < |TelescopeParts(k)| ==>
      if TelescopeParts(k)[i].SubarrayPart? then key !in kd.subarray else key !in PartKeys(TelescopeParts(k)[i])
    ensures var m := Run(TelescopeSteps(k, kd, digest), map[]).0;
      key in m && m[key] == PartMet(TelescopeParts(k)[j], k, kd, digest)[key]
  {
    var parts := TelescopeParts(k);
    var steps := TelescopeSteps(k, kd, digest);
    forall i | j < i < |steps| ensures key !in steps[i].fields {
      var m := PartMet(parts[i], k, kd, digest);
      assert steps[i].fields == m;
      if parts[i].SubarrayPart? {
        SubarrayPartMet(parts[i], k, kd, digest);
        assert key !in kd.subarray;
      } else {
        assert m.Keys <= PartKeys(parts[i]);
        assert key !in PartKeys(parts[i]);
      }
    }
    assert steps[j].fields == PartMet(parts[j], k, kd, digest);
    RunAllMerges(steps, map[]);
    FieldsLastWins(steps, j, key);
  }

  /** The extractor the factory constructs for a telescope kind: the met file
      is the absolute katfile path plus '.met'. */
  method NewTelescopeExtractor(k: Kind, kd: KatData, cwd: string, digest: Option<string>) returns (e: MetExtractor)
    requires !k.PulsarSearch? && !k.PulsarTiming?
    ensures fresh(e)
    ensures e.metadataFilename == AbsPath(cwd, kd.fileName) + ".met" && e.productType == Some(ProductTypeOf(k))
    ensures e.steps == TelescopeSteps(k, kd, digest) && e.guarded
    ensures e.metadata == map[] && !e.extracted
  {
    e := new MetExtractor(AbsPath(cwd, kd.fileName) + ".met", Some(ProductTypeOf(k)), TelescopeSteps(k, kd, digest), true);
  }

  /** Only the type helper writes the product type keys. */
  lemma TypeKeysElsewhere(p: Part)
    requires !p.TypePart? && !p.SubarrayPart?
    ensures PRODUCT_TYPE !in PartKeys(p) && CAS_PRODUCT_TYPE !in PartKeys(p)
  {
    match p
    case KatdataPart =>
      DerivedNoType();
    case ProjectPart =>
      assert PROJECT_PARAMS.Keys == {"ProposalId", "ProgramBlockId", "ScheduleBlockIdCode", "IssueId", "ProposalDescription"};
    case _ =>
  }

  /** Every telescope extraction writes the product type under both keys. */
  lemma TelescopeProductType(k: Kind, kd: KatData, digest: Option<string>)
    requires !k.PulsarSearch? && !k.PulsarTiming?
    requires PRODUCT_TYPE !in kd.subarray && CAS_PRODUCT_TYPE !in kd.subarray
    ensures var m := Run(TelescopeSteps(k, kd, digest), map[]).0;
      PRODUCT_TYPE in m && CAS_PRODUCT_TYPE in m && m[PRODUCT_TYPE] == m[CAS_PRODUCT_TYPE] == Text(ProductTypeOf(k))
  {
    var parts := TelescopeParts(k);
    var j := if k.MeerKatAr1? then 1 else 0;
    assert parts[j] == TypePart;
    assert forall i :: j < i < |parts| ==> !parts[i].TypePart?;
    forall i | j < i < |parts| && !parts[i].SubarrayPart?
      ensures PRODUCT_TYPE !in PartKeys(parts[i]) && CAS_PRODUCT_TYPE !in PartKeys(parts[i])
    {
      TypeKeysElsewhere(parts[i]);
    }
    TelescopeKey(k, kd, digest, j, PRODUCT_TYPE);
    TelescopeKey(k, kd, digest, j, CAS_PRODUCT_TYPE);
  }

  /** The RTS reduction name, '' when the parameter is missing. */
  lemma RtsReductionName(kd: KatData, digest: Option<string>)
    ensures var m := Run(TelescopeSteps(Rts, kd, digest), map[]).0;
      "ReductionName" in m &&
      m["ReductionName"] == Text(if "reduction_name" in kd.obsParams then kd.obsParams["reduction_name"] else "")
  {
    var parts := TelescopeParts(Rts);
    assert parts[2] == RtsReductionPart && parts[3] == DigestPart && parts[4] == ProjectPart && parts[5] == LocationPart;
    assert "ReductionName" !in PROJECT_PARAMS.Keys;
    assert PartMet(parts[2], Rts, kd, digest) == RtsReductionMet(kd.obsParams);
    TelescopeKey(Rts, kd, digest, 2, "ReductionName");
  }

  /** The AR1 reduction label is written iff reduction_label or
      reduction_name is set, preferring reduction_label. */
  lemma Ar1ReductionLabel(kd: KatData, digest: Option<string>)
    requires "ReductionLabel" !in kd.subarray
    ensures var m := Run(TelescopeSteps(MeerKatAr1, kd, digest), map[]).0;
      ("ReductionLabel" in m <==>
        (NonEmptyParam(kd.obsParams, "reduction_label").Some? || NonEmptyParam(kd.obsParams, "reduction_name").Some?)) &&
      (NonEmptyParam(kd.obsParams, "reduction_label").Some? ==> "ReductionLabel" in m && m["ReductionLabel"] == Text(kd.obsParams["reduction_label"]))
  {
    if "ReductionLabel" in Ar1ReductionMet(kd.obsParams) {
      Ar1LabelWritten(kd, digest);
    } else {
      Ar1LabelAbsent(kd, digest);
    }
  }

  /** A label the reduction helper writes is the one the record keeps. */
  lemma Ar1LabelWritten(kd: KatData, digest: Option<string>)
    requires "ReductionLabel" in Ar1ReductionMet(kd.obsParams)
    ensures var m := Run(TelescopeSteps(MeerKatAr1, kd, digest), map[]).0;
      "ReductionLabel" in m && m["ReductionLabel"] == Ar1ReductionMet(kd.obsParams)["ReductionLabel"]
  {
    var parts := TelescopeParts(MeerKatAr1);
    assert |parts| == 7 && parts[5] == Ar1ReductionPart && parts[6] == LocationPart;
    assert "ReductionLabel" !in PartKeys(LocationPart);
    assert forall i :: 5 < i < |parts| ==> parts[i] == LocationPart;
    TelescopeKey(MeerKatAr1, kd, digest, 5, "ReductionLabel");
  }

  /** Without a label from the reduction helper the record has none. */
  lemma Ar1LabelAbsent(kd: KatData, digest: Option<string>)
    requires "ReductionLabel" !in kd.subarray && "ReductionLabel" !in Ar1ReductionMet(kd.obsParams)
    ensures "ReductionLabel" !in Run(TelescopeSteps(MeerKatAr1, kd, digest), map[]).0
  {
    var steps := TelescopeSteps(MeerKatAr1, kd, digest);
    assert TelescopeParts(MeerKatAr1)[5] == Ar1ReductionPart;
    forall i | 0 <= i < |steps| ensures "ReductionLabel" !in steps[i].fields {
      if i != 5 {
        Ar1StepLacksLabel(kd, digest, i);
      }
    }
    RunAllMerges(steps, map[]);
    FieldsMissing(steps, "ReductionLabel");
  }

  /** Only the AR1 reduction helper writes the reduction label. */
  lemma LabelKeyElsewhere(p: Part)
    requires !p.Ar1ReductionPart? && !p.SubarrayPart?
    ensures "ReductionLabel" !in PartKeys(p)
  {
    match p
    case KatdataPart =>
      DerivedNoLabel();
    case ProjectPart =>
      assert PROJECT_PARAMS.Keys == {"ProposalId", "ProgramBlockId", "ScheduleBlockIdCode", "IssueId", "ProposalDescription"};
    case _ =>
  }

  /** Only the reduction helper of an AR1 extraction writes its label. */
  lemma Ar1StepLacksLabel(kd: KatData, digest: Option<string>, i: nat)
    requires i < 7 && i != 5 && "ReductionLabel" !in kd.subarray
    ensures "ReductionLabel" !in TelescopeSteps(MeerKatAr1, kd, digest)[i].fields
  {
    var p := TelescopeParts(MeerKatAr1)[i];
    var m := PartMet(p, MeerKatAr1, kd, digest);
    assert TelescopeSteps(MeerKatAr1, kd, digest)[i].fields == m;
    if p.SubarrayPart? {
      assert m == kd.subarray;
    } else {
      assert !p.Ar1ReductionPart?;
      assert m.Keys <= PartKeys(p);
      LabelKeyElsewhere(p);
    }
  }

  /** No helper that follows the project helper writes a project key. */
  lemma ProjectKeysElsewhere(key: string)
    requires key in PROJECT_PARAMS
    ensures key !in PartKeys(DigestPart) && key !in PartKeys(LocationPart) && key !in PartKeys(Ar1ReductionPart)
  {
    assert PROJECT_PARAMS.Keys == {"ProposalId", "ProgramBlockId", "ScheduleBlockIdCode", "IssueId", "ProposalDescription"};
  }

  /** The project keys the extraction writes are those of the project
      helper (no later helper writes them). */
  lemma TelescopeProject(k: Kind, kd: KatData, digest: Option<string>, key: string)
    requires !k.PulsarSearch? && !k.PulsarTiming?
    requires key in ProjectMet(kd.obsParams) && key !in kd.subarray
    ensures var m := Run(TelescopeSteps(k, kd, digest), map[]).0;
      key in m && m[key] == Text(kd.obsParams[PROJECT_PARAMS[key]])
  {
    ProjectKeysElsewhere(key);
    var j := match k case Rts => 4 case MeerKatAr1 => 3 case _ => 2;
    assert TelescopeParts(k)[j] == ProjectPart;
    TelescopeKey(k, kd, digest, j, key);
  }

  /** The factory's kinds always extract without raising. */
  lemma TelescopeExtractionRuns(k: Kind, kd: KatData, digest: Option<string>)
    requires !k.PulsarSearch? && !k.PulsarTiming?
    ensures ExtractOnce(State(map[], false), TelescopeSteps(k, kd, digest), true).1.Ok?
  {
    RunAllMerges(TelescopeSteps(k, kd, digest), map[]);
  }

  // ---------------------------------------------------------------------
  // Reduction and calibration products
  // ---------------------------------------------------------------------

  /** The first entry of a listing that ends with '.met.pickle'. */
  function FirstPickle(listing: seq<string>): (r: Option<string>)
    ensures r.Some? ==> r.value in listing && EndsWith(r.value, ".met.pickle")
    ensures r.None? <==> forall i :: 0 <= i < |listing| ==> !EndsWith(listing[i], ".met.pickle")
  {
    if listing == [] then None
    else if EndsWith(listing[0], ".met.pickle") then Some(listing[0])
    else
      assert forall i :: 1 <= i < |listing| ==> listing[i] == listing[1..][i - 1];
      FirstPickle(listing[1..])
  }

  /** ReductionProductMetExtractor's construction: the pickle file found in
      the product directory, or MetExtractorException. */
  function ReductionPickle(prodName: string, listing: seq<string>): (r: Result<string>)
    ensures r.Ok? <==> FirstPickle(listing).Some?
    ensures r.Ok? ==> r.value == PathJoin(prodName, FirstPickle(listing).value)
  {
    var p := FirstPickle(listing);
    if p.Some? then Ok(PathJoin(prodName, p.value))
    else Err("MetExtractorException: Cannot find a *.met.pickle file in " + prodName)
  }

  /** The reduction extractors: the product type, then the pickled record. */
  function ReductionSteps(productType: string, pickled: Met): (r: seq<Step>)
    ensures AllMerges(r)
  {
    [Merge(ProductTypeMet(Some(productType))), Merge(pickled)]
  }

  const CALIBRATION_TYPE := "MeerKATAR1ReductionProduct"

  /** The capture block of a calibration report: the first ten characters of
      the last path component. */
  function CalibrationBlockId(prodName: string): (r: string)
    ensures var b := Basename(prodName);
      (|b| >= 10 ==> r == b[..10]) && (|b| < 10 ==> r == b)
    ensures '/' !in r
  {
    var b := Basename(prodName);
    if |b| >= 10 then b[..10] else b
  }

  function CalibrationSteps(prodName: string): (r: seq<Step>)
    ensures AllMerges(r)
  {
    [Merge(ProductTypeMet(Some(CALIBRATION_TYPE))),
     Merge(map["ReductionName" := Text("Calibration Report"), "CaptureBlockId" := Text(CalibrationBlockId(prodName))])]
  }

  /** CalibrationProductMetExtractor. */
  method NewCalibrationExtractor(prodName: string) returns (e: MetExtractor)
    ensures fresh(e)
    ensures e.metadataFilename == prodName + ".met" && e.productType == Some(CALIBRATION_TYPE)
    ensures e.steps == CalibrationSteps(prodName) && e.guarded
    ensures e.metadata == map[] && !e.extracted
  {
    e := new MetExtractor(prodName + ".met", Some(CALIBRATION_TYPE), CalibrationSteps(prodName), true);
  }

  /** A calibration record names its report and its capture block. */
  lemma CalibrationExtraction(prodName: string)
    ensures var (m, e) := Run(CalibrationSteps(prodName), map[]);
      e.None? && "CaptureBlockId" in m && "ReductionName" in m && CAS_PRODUCT_TYPE in m &&
      m["CaptureBlockId"] == Text(CalibrationBlockId(prodName)) &&
      m["ReductionName"] == Text("Calibration Report") && m[CAS_PRODUCT_TYPE] == Text(CALIBRATION_TYPE)
  {
    var steps := CalibrationSteps(prodName);
    RunAllMerges(steps, map[]);
    FieldsLastWins(steps, 1, "CaptureBlockId");
    FieldsLastWins(steps, 1, "ReductionName");
    FieldsLastWins(steps, 0, CAS_PRODUCT_TYPE);
  }

  /** A calibration report of '/data/1555555555_sdp_l0' belongs to capture
      block 1555555555. */
  lemma CalibrationBlockIdExample()
    ensures CalibrationBlockId("/data/1555555555_sdp_l0") == "1555555555"
  {
    var p := "/data/1555555555_sdp_l0";
    assert AfterLast(p, '/') == 6 by {
      assert p[5] == '/';
      assert forall j :: 6 <= j < |p| ==> p[j] != '/';
    }
    assert Basename(p) == "1555555555_sdp_l0";
  }
}
