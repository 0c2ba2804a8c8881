// Choosing the extractor for a product file: only RDB files are products,
// and an RDB file's telescope state names its stream, whose stream_type
// says whether it is a visibility or a flag stream.

module MetDetectors {
  import opened Wrappers
  import opened Strs

  /** The two extractor classes a detection can return. */
  datatype Detected = TelescopeStreamExtractor | FlagStreamExtractor

  /** The telescope state loaded from an RDB file: its root keys, and the
      keys stored under each namespace. */
  datatype Telstate = Telstate(root: map<string, string>, views: map<string, map<string, string>>)

  /** A key read through the view of namespace `ns`: the namespaced key
      first, then the root. */
  function ViewGet(ts: Telstate, ns: string, key: string): (r: Option<string>)
    ensures ns in ts.views && key in ts.views[ns] ==> r == Some(ts.views[ns][key])
    ensures !(ns in ts.views && key in ts.views[ns]) ==> r == (if key in ts.root then Some(ts.root[key]) else None)
  {
    if ns in ts.views && key in ts.views[ns] then Some(ts.views[ns][key])
    else if key in ts.root then Some(ts.root[key])
    else None
  }

  /** The message is raised without its '%s' filled in. */
  const UNKNOWN_STREAM := "ProductTypeDetectionError: %s not a recognisable stream type"

  /** telstate_detection. */
  function TelstateDetection(ts: Telstate): (r: Result<Detected>)
  {
    if "stream_name" !in ts.root then Err("KeyError: 'stream_name'")
    else
      var t := ViewGet(ts, ts.root["stream_name"], "stream_type");
      if t.None? then Err("KeyError: 'stream_type'")
      else if t.value == "sdp.vis" then Ok(TelescopeStreamExtractor)
      else if t.value == "sdp.flags" then Ok(FlagStreamExtractor)
      else Err(UNKNOWN_STREAM)
  }

  /** The stream type is the one read through the view named by
      stream_name: 'sdp.vis' and 'sdp.flags' pick the two extractors, and
      any other type, or a missing key, raises. */
  lemma TelstateDetectionCases(ts: Telstate)
    ensures var r := TelstateDetection(ts);
      (r.Ok? <==> ("stream_name" in ts.root &&
         ViewGet(ts, ts.root["stream_name"], "stream_type") in {Some("sdp.vis"), Some("sdp.flags")})) &&
      (r == Ok(TelescopeStreamExtractor) <==> ("stream_name" in ts.root &&
         ViewGet(ts, ts.root["stream_name"], "stream_type") == Some("sdp.vis"))) &&
      (r == Ok(FlagStreamExtractor) <==> ("stream_name" in ts.root &&
         ViewGet(ts, ts.root["stream_name"], "stream_type") == Some("sdp.flags")))
  {
  }

  /** A stream_type stored in the stream's own namespace decides, whatever
      the root holds. */
  lemma ViewOverridesRoot(ts: Telstate, x: string)
    requires "stream_name" in ts.root
    requires ts.root["stream_name"] in ts.views && "stream_type" in ts.views[ts.root["stream_name"]]
    ensures TelstateDetection(ts.(root := ts.root["stream_type" := x])) == TelstateDetection(ts)
  {
    var ts' := ts.(root := ts.root["stream_type" := x]);
    assert "stream_name" != "stream_type";
    assert ts'.root["stream_name"] == ts.root["stream_name"];
  }

  /** file_type_detection: only the final extension counts. */
  function FileTypeDetection(filename: string, ts: Telstate): (r: Result<Detected>)
    ensures SplitExt(filename).1 != ".rdb" ==>
      r == Err("ProductTypeDetectionError: " + SplitExt(filename).1 + " from " + filename + " not a valid file type.")
    ensures SplitExt(filename).1 == ".rdb" ==> r == TelstateDetection(ts)
  {
    var ext := SplitExt(filename).1;
    if ext == ".rdb" then TelstateDetection(ts)
    else Err("ProductTypeDetectionError: " + ext + " from " + filename + " not a valid file type.")
  }

  /** A detected file ends in '.rdb'. */
  lemma DetectedIsRdb(filename: string, ts: Telstate)
    requires FileTypeDetection(filename, ts).Ok?
    ensures EndsWith(filename, ".rdb")
  {
    var (root, ext) := SplitExt(filename);
    assert filename == root + ext;
    assert filename[|filename| - 4..] == ext;
  }

  /** The full RDB file is detected by its final '.rdb' suffix. */
  lemma FinalSuffixOnly(ts: Telstate)
    ensures FileTypeDetection("x/a.full.rdb", ts) == TelstateDetection(ts)
  {
    SplitExtFinalSuffix();
  }
}
