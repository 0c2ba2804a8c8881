// The two MeerKAT capture-stream extractors: the telescope product (a katdal
// dataset opened from the stream's RDB file) and the flag product (read
// from the telescope state).  Both are run-once extractors whose product
// type is written to CAS.ProductTypeName only.

module MeerkatExtractors {
  import opened Wrappers
  import opened Strs
  import opened Metadata
  import opened MetExtractors

  const TELESCOPE_TYPE := "MeerKATTelescopeProduct"
  const FLAG_TYPE := "MeerKATFlagProduct"

  /** The overridden _extract_metadata_product_type. */
  function CasTypeMet(productType: string): (r: Met)
    ensures r == map[CAS_PRODUCT_TYPE := Text(productType)]
  {
    map[CAS_PRODUCT_TYPE := Text(productType)]
  }

  /** The index of the first '_' in a name, if any. */
  function FirstUnderscore(s: string): (r: Option<nat>)
    ensures r.Some? ==> r.value < |s| && s[r.value] == '_' && '_' !in s[..r.value]
    ensures r.None? <==> '_' !in s
  {
    if s == [] then None
    else if s[0] == '_' then Some(0)
    else
      var t := FirstUnderscore(s[1..]);
      assert forall c :: c in s <==> c == s[0] || c in s[1..];
      if t.None? then None
      else
        assert s[..t.value + 1] == [s[0]] + s[1..][..t.value];
        Some(t.value + 1)
  }

  /** The telescope extractor's _extract_metadata_for_capture_stream: the
      whole name, then the part before the first '_', then the rest; a
      name without '_' has no second part, so the third assignment raises
      IndexError after the first two were made. */
  function CaptureStreamSteps(name: string): (r: seq<Step>)
    ensures |r| == 2 && r[0].Merge?
    ensures FirstUnderscore(name).Some? ==> r[1].Merge?
    ensures FirstUnderscore(name).None? ==> r[1].Raise?
  {
    var u := FirstUnderscore(name);
    var cbid := if u.Some? then name[..u.value] else name;
    [Merge(map["CaptureStreamId" := Text(name), "CaptureBlockId" := Text(cbid)]),
     if u.Some? then Merge(map["StreamId" := Text(name[u.value + 1..])]) else Raise("IndexError: list index out of range")]
  }

  /** With a '_' in the name, the capture block id (free of '_') and the
      stream id put back together give the name; without one, the two ids
      are written and IndexError is raised. */
  lemma CaptureStreamIds(name: string, met: Met)
    ensures var (m, e) := Run(CaptureStreamSteps(name), met);
      "CaptureStreamId" in m && "CaptureBlockId" in m &&
      m["CaptureStreamId"] == Text(name) && m["CaptureBlockId"].Text? &&
      (e.None? <==> '_' in name) &&
      ('_' in name ==> ("StreamId" in m && m["StreamId"].Text? && '_' !in m["CaptureBlockId"].s &&
         m["CaptureBlockId"].s + "_" + m["StreamId"].s == name)) &&
      ('_' !in name ==> e == Some("IndexError: list index out of range") && m["CaptureBlockId"] == Text(name))
  {
    var steps := CaptureStreamSteps(name);
    var m1 := Update(met, steps[0].fields);
    assert Run(steps, met) == Run(steps[1..], m1);
    assert steps[1..][1..] == [];
    var u := FirstUnderscore(name);
    if u.Some? {
      var i := u.value;
      assert Run(steps[1..], m1) == (Update(m1, steps[1].fields), None);
      assert name[..i] + "_" + name[i + 1..] == name by {
        assert name == name[..i] + [name[i]] + name[i + 1..];
      }
    }
  }

  /** MeerKATTelescopeProductMetExtractor.extract_metadata's steps. */
  function TelescopeStreamSteps(kd: KatData): seq<Step>
  {
    TelescopeStreamHead(kd) + CaptureStreamSteps(kd.sourceName) + [Merge(LocationMet(kd))]
  }

  /** MeerKATTelescopeProductMetExtractor: the met file is named after the
      dataset's source. */
  method NewTelescopeStreamExtractor(kd: KatData) returns (e: MetExtractor)
    ensures fresh(e)
    ensures e.metadataFilename == kd.sourceName + ".met" && e.productType == Some(TELESCOPE_TYPE)
    ensures e.steps == TelescopeStreamSteps(kd) && e.guarded
    ensures e.metadata == map[] && !e.extracted
  {
    e := new MetExtractor(kd.sourceName + ".met", Some(TELESCOPE_TYPE), TelescopeStreamSteps(kd), true);
  }

  /** The merges ahead of the capture-stream steps. */
  function TelescopeStreamHead(kd: KatData): (r: seq<Step>)
    ensures AllMerges(r)
  {
    var a, b, c := CasTypeMet(TELESCOPE_TYPE), KatdataMet(kd), ProjectMet(kd.obsParams);
    ThreeMerges(a, b, c);
    [Merge(a), Merge(b), Merge(c)]
  }

  lemma ThreeMerges(a: Met, b: Met, c: Met)
    ensures AllMerges([Merge(a), Merge(b), Merge(c)])
  {
  }

  /** The telescope stream extraction writes its type under
      CAS.ProductTypeName and the capture ids of the source name; it raises
      exactly when the name has no '_'. */
  lemma TelescopeStreamExtraction(kd: KatData)
    ensures var (m, e) := Run(TelescopeStreamSteps(kd), map[]);
      (e.None? <==> '_' in kd.sourceName) &&
      CAS_PRODUCT_TYPE in m && m[CAS_PRODUCT_TYPE] == Text(TELESCOPE_TYPE) &&
      "CaptureStreamId" in m && m["CaptureStreamId"] == Text(kd.sourceName)
  {
    var head := TelescopeStreamHead(kd);
    var cs := CaptureStreamSteps(kd.sourceName);
    var loc := Merge(LocationMet(kd));
    assert TelescopeStreamSteps(kd) == head + (cs + [loc]);
    RunMergesThen(head, cs + [loc], map[]);
    var m0 := Update(map[], Fields(head));
    HeadType(kd, m0);
    LocationKeys(kd);
    CaptureStreamTail(cs, loc, m0, kd.sourceName);
  }

  /** Only the first merge of the head writes the CAS product type. */
  lemma HeadType(kd: KatData, m0: Met)
    requires m0 == Update(map[], Fields(TelescopeStreamHead(kd)))
    ensures CAS_PRODUCT_TYPE in m0 && m0[CAS_PRODUCT_TYPE] == Text(TELESCOPE_TYPE)
  {
    KatdataNoType(kd);
    ProjectNoType(kd.obsParams);
    FirstMergeWins(CasTypeMet(TELESCOPE_TYPE), KatdataMet(kd), ProjectMet(kd.obsParams));
  }

  /** Of three merges, a key written only by the first keeps its value. */
  lemma FirstMergeWins(a: Met, b: Met, c: Met)
    requires CAS_PRODUCT_TYPE in a && CAS_PRODUCT_TYPE !in b && CAS_PRODUCT_TYPE !in c
    ensures var m := Update(map[], Fields([Merge(a), Merge(b), Merge(c)]));
      CAS_PRODUCT_TYPE in m && m[CAS_PRODUCT_TYPE] == a[CAS_PRODUCT_TYPE]
  {
    FieldsLastWins([Merge(a), Merge(b), Merge(c)], 0, CAS_PRODUCT_TYPE);
  }

  lemma LocationKeys(kd: KatData)
    ensures CAS_PRODUCT_TYPE !in LocationMet(kd) && "CaptureStreamId" !in LocationMet(kd)
  {
  }

  /** The capture-stream steps followed by the location merge. */
  lemma CaptureStreamTail(cs: seq<Step>, loc: Step, m0: Met, name: string)
    requires cs == CaptureStreamSteps(name) && loc.Merge?
    requires CAS_PRODUCT_TYPE in m0 && CAS_PRODUCT_TYPE !in loc.fields && "CaptureStreamId" !in loc.fields
    ensures var (m, e) := Run(cs + [loc], m0);
      (e.None? <==> '_' in name) &&
      CAS_PRODUCT_TYPE in m && m[CAS_PRODUCT_TYPE] == m0[CAS_PRODUCT_TYPE] &&
      "CaptureStreamId" in m && m["CaptureStreamId"] == Text(name)
  {
    var m1 := Update(m0, cs[0].fields);
    assert (cs + [loc])[0] == cs[0] && (cs + [loc])[1..] == [cs[1], loc];
    assert Run(cs + [loc], m0) == Run([cs[1], loc], m1);
    assert m1[CAS_PRODUCT_TYPE] == m0[CAS_PRODUCT_TYPE] && m1["CaptureStreamId"] == Text(name);
    if cs[1].Merge? {
      assert '_' in name;
      var m2 := Update(m1, cs[1].fields);
      assert Run([cs[1], loc], m1) == Run([loc], m2);
      assert [loc][1..] == [];
      assert Run([loc], m2) == (Update(m2, loc.fields), None);
    } else {
      assert '_' !in name;
      assert Run([cs[1], loc], m1) == (m1, Some(cs[1].error));
    }
  }

  /** The flag extractor's capture ids, from the telescope state's
      capture_block_id and stream_name. */
  function FlagStreamId(cbid: string, streamName: string): (r: string)
    ensures StartsWith(r, cbid + "_") && r[|cbid| + 1..] == streamName
  {
    var r := cbid + "_" + streamName;
    assert r[..|cbid| + 1] == cbid + "_";
    r
  }

  function FlagSteps(cbid: string, streamName: string): (r: seq<Step>)
    ensures AllMerges(r)
  {
    [Merge(CasTypeMet(FLAG_TYPE)),
     Merge(map["CaptureStreamId" := Text(FlagStreamId(cbid, streamName)), "CaptureBlockId" := Text(cbid),
               "StreamId" := Text(streamName)])]
  }

  /** MeerKATFlagProductMetExtractor: the met file is the capture stream id
      plus '.met'. */
  method NewFlagExtractor(cbid: string, streamName: string) returns (e: MetExtractor)
    ensures fresh(e)
    ensures e.metadataFilename == FlagStreamId(cbid, streamName) + ".met" && e.productType == Some(FLAG_TYPE)
    ensures e.steps == FlagSteps(cbid, streamName) && e.guarded
    ensures e.metadata == map[] && !e.extracted
  {
    e := new MetExtractor(FlagStreamId(cbid, streamName) + ".met", Some(FLAG_TYPE), FlagSteps(cbid, streamName), true);
  }

  /** The flag record: its type under CAS.ProductTypeName, and the met file
      named after its CaptureStreamId. */
  lemma FlagExtraction(cbid: string, streamName: string)
    ensures var (m, e) := Run(FlagSteps(cbid, streamName), map[]);
      e.None? && CAS_PRODUCT_TYPE in m && "CaptureStreamId" in m && "CaptureBlockId" in m && "StreamId" in m &&
      m[CAS_PRODUCT_TYPE] == Text(FLAG_TYPE) &&
      m["CaptureStreamId"] == Text(cbid + "_" + streamName) &&
      m["CaptureBlockId"] == Text(cbid) && m["StreamId"] == Text(streamName)
  {
    var steps := FlagSteps(cbid, streamName);
    RunAllMerges(steps, map[]);
    FieldsLastWins(steps, 0, CAS_PRODUCT_TYPE);
    FieldsLastWins(steps, 1, "CaptureStreamId");
    FieldsLastWins(steps, 1, "CaptureBlockId");
    FieldsLastWins(steps, 1, "StreamId");
  }
}
