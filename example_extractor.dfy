// The example extractor script: a base extractor that refuses to run
// without a product type, and an extractor for a plain file that records
// the file's absolute name and its content.  Its extract_metadata has no
// run-once test, so every call runs the steps again.

module ExampleExtractor {
  import opened Wrappers
  import opened Strs
  import opened Metadata
  import opened MetExtractors

  const NO_PRODUCT_TYPE := "MetExtractorException: No product type."
  const EXAMPLE_TYPE := "ExampleFileType"

  /** _extract_metadata_product_type: the type under ProductTypeName, or an
      error when none is set. */
  function TypeStep(productType: Option<string>): (r: Step)
    ensures productType.None? ==> r == Raise(NO_PRODUCT_TYPE)
    ensures productType.Some? ==> r == Merge(map["ProductTypeName" := Text(productType.value)])
  {
    if productType.None? then Raise(NO_PRODUCT_TYPE)
    else Merge(map["ProductTypeName" := Text(productType.value)])
  }

  /** ExampleMetExtractor.extract_metadata: the absolute file name, the
      file's content (or the error reading it), then the base steps. */
  function ExampleSteps(absName: string, content: Result<string>): seq<Step>
  {
    [Merge(map["ProductName" := Text(absName)]),
     if content.Ok? then Merge(map["FileContent" := Text(content.value)]) else Raise(content.error),
     TypeStep(Some(EXAMPLE_TYPE))]
  }

  /** A base extractor, whose product type is None. */
  method NewBaseExtractor(metadataFilename: string) returns (e: MetExtractor)
    ensures fresh(e)
    ensures e.metadataFilename == metadataFilename && e.productType.None?
    ensures e.steps == [TypeStep(None)] && !e.guarded
    ensures e.metadata == map[] && !e.extracted
  {
    e := new MetExtractor(metadataFilename, None, [TypeStep(None)], false);
  }

  /** ExampleMetExtractor: the met file is the name as given plus '.met',
      while ProductName holds the absolute name. */
  method NewExampleExtractor(filename: string, cwd: string, content: Result<string>) returns (e: MetExtractor)
    ensures fresh(e)
    ensures e.metadataFilename == filename + ".met" && e.productType == Some(EXAMPLE_TYPE)
    ensures e.steps == ExampleSteps(AbsPath(cwd, filename), content) && !e.guarded
    ensures e.metadata == map[] && !e.extracted
  {
    e := new MetExtractor(filename + ".met", Some(EXAMPLE_TYPE), ExampleSteps(AbsPath(cwd, filename), content), false);
  }

  /** Without a product type extraction raises and nothing is recorded;
      the extracted flag stays unset, so write_metadatafile refuses. */
  lemma BaseExtractionFails(s: State)
    requires !s.extracted
    ensures var (s', r) := ExtractOnce(s, [TypeStep(None)], false);
      r == Err(NO_PRODUCT_TYPE) && s' == s
  {
  }

  /** A readable file gives its name, content and type, and sets the
      extracted flag; an unreadable one raises the read error after
      recording only the name. */
  lemma ExampleExtraction(absName: string, content: Result<string>)
    ensures var (m, e) := Run(ExampleSteps(absName, content), map[]);
      "ProductName" in m && m["ProductName"] == Text(absName) &&
      (content.Ok? ==> e.None? && m == map["ProductName" := Text(absName), "FileContent" := Text(content.value),
                                         "ProductTypeName" := Text(EXAMPLE_TYPE)]) &&
      (content.Err? ==> e == Some(content.error) && m == map["ProductName" := Text(absName)])
  {
    var steps := ExampleSteps(absName, content);
    var m1 := Update(map[], map["ProductName" := Text(absName)]);
    assert Run(steps, map[]) == Run(steps[1..], m1);
    assert m1 == map["ProductName" := Text(absName)];
    if content.Ok? {
      var m2 := Update(m1, map["FileContent" := Text(content.value)]);
      assert Run(steps[1..], m1) == Run(steps[2..], m2);
      var m3 := Update(m2, map["ProductTypeName" := Text(EXAMPLE_TYPE)]);
      assert Run(steps[2..], m2) == Run(steps[3..], m3);
      assert steps[3..] == [];
      assert m3 == map["ProductName" := Text(absName), "FileContent" := Text(content.value),
                       "ProductTypeName" := Text(EXAMPLE_TYPE)];
    }
  }

  /** Extracting again, which the example allows, leaves the same metadata. */
  lemma ExampleRerunHarmless(s: State, absName: string, content: Result<string>)
    requires content.Ok?
    ensures var steps := ExampleSteps(absName, content);
      var s1 := ExtractOnce(s, steps, false).0;
      ExtractOnce(s1, steps, false) == (s1, Ok(()))
  {
    var steps := ExampleSteps(absName, content);
    assert AllMerges(steps);
    RunAllMerges(steps, s.metadata);
    var m1 := Update(s.metadata, Fields(steps));
    RunAllMerges(steps, m1);
    UpdateTwice(s.metadata, Fields(steps));
  }

  lemma UpdateTwice(m: Met, f: Met)
    ensures Update(Update(m, f), f) == Update(m, f)
  {
    assert Update(Update(m, f), f).Keys == Update(m, f).Keys;
  }
}
