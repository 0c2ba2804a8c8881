// A stream product of the crawling trawler: its name (the stream), its
// product type, found from the STREAM_TYPES patterns in their order, and its
// two RDB files; the archive record it is attached to, and the guards of
// every operation that needs a metadata handler.
//
// The Solr core behind the handler is the document sequence `docs`.

module TrawlerProduct {
  import opened Wrappers
  import opened Strs
  import opened Metadata
  import opened MetHandler

  const TELESCOPE_PRODUCT := "MeerKATTelescopeProduct"
  const FLAG_PRODUCT := "MeerKATFlagProduct"

  predicate IsSep(c: char) { c == '-' || c == '_' }

  /** ^[0-9]{10}[-_]sdp[-_], the common head of the stream patterns. */
  predicate SdpHead(d: string)
  {
    |d| >= 15 && TenDigitHead(d) && IsSep(d[10]) && d[11..14] == "sdp" && IsSep(d[14])
  }

  /** ^[0-9]{10}[-_]sdp[-_](l0$|l0[-_]continuum$) */
  predicate IsTelescopeStream(d: string)
  {
    SdpHead(d) && (d[15..] == "l0" || (|d| == 27 && d[15..17] == "l0" && IsSep(d[17]) && d[18..] == "continuum"))
  }

  /** ^[0-9]{10}[-_]sdp[-_](l1[-_]flags$|l1[-_]flags[-_]continuum$) */
  predicate IsFlagStream(d: string)
  {
    SdpHead(d) && |d| >= 23 && d[15..17] == "l1" && IsSep(d[17]) && d[18..23] == "flags" &&
    (|d| == 23 || (|d| == 33 && IsSep(d[23]) && d[24..] == "continuum"))
  }

  /** The STREAM_TYPES entries, in the dictionary's order. */
  const STREAM_TYPES: seq<string> := [TELESCOPE_PRODUCT, FLAG_PRODUCT]

  predicate TypeMatches(t: string, name: string)
  {
    if t == TELESCOPE_PRODUCT then IsTelescopeStream(name)
    else if t == FLAG_PRODUCT then IsFlagStream(name)
    else false
  }

  /** The first of `types` whose pattern matches, if any. */
  function FirstType(types: seq<string>, name: string): (r: Option<string>)
    ensures r.Some? ==> r.value in types && TypeMatches(r.value, name)
    ensures r.None? <==> forall i :: 0 <= i < |types| ==> !TypeMatches(types[i], name)
  {
    if types == [] then None
    else if TypeMatches(types[0], name) then Some(types[0])
    else
      var rest := FirstType(types[1..], name);
      assert forall i :: 1 <= i < |types| ==> types[i] == types[1..][i - 1];
      rest
  }

  /** No stream is both a telescope stream and a flag stream, so the order of
      STREAM_TYPES does not matter. */
  lemma StreamTypesDisjoint(name: string)
    ensures !(IsTelescopeStream(name) && IsFlagStream(name))
  {
  }

  /** The product type of a stream, or ProductError. */
  lemma ProductTypeCases(name: string)
    ensures IsTelescopeStream(name) ==> FirstType(STREAM_TYPES, name) == Some(TELESCOPE_PRODUCT)
    ensures IsFlagStream(name) ==> FirstType(STREAM_TYPES, name) == Some(FLAG_PRODUCT)
    ensures FirstType(STREAM_TYPES, name).None? <==> !IsTelescopeStream(name) && !IsFlagStream(name)
  {
    StreamTypesDisjoint(name);
    assert STREAM_TYPES[0] == TELESCOPE_PRODUCT && STREAM_TYPES[1] == FLAG_PRODUCT;
  }

  lemma DigitHead(d: string)
    requires |d| >= 10 && d[..10] == "1234567890"
    ensures TenDigitHead(d)
  {
    assert forall i :: 0 <= i < 10 ==> d[..10][i] == "1234567890"[i];
  }

  /** The stream names the source documents, in both separator styles. */
  lemma DocumentedTelescopeStreams()
    ensures IsTelescopeStream("1234567890-sdp-l0") && IsTelescopeStream("1234567890_sdp_l0_continuum")
  {
    DashedTelescopeStream();
    UnderscoredTelescopeStream();
  }

  lemma DashedTelescopeStream()
    ensures IsTelescopeStream("1234567890-sdp-l0")
  {
    var t := "1234567890-sdp-l0";
    assert t[..10] == "1234567890" && t[11..14] == "sdp" && t[15..] == "l0";
    DigitHead(t);
  }

  lemma UnderscoredTelescopeStream()
    ensures IsTelescopeStream("1234567890_sdp_l0_continuum")
  {
    var u := "1234567890_sdp_l0_continuum";
    assert u[..10] == "1234567890" && u[11..14] == "sdp" && u[15..17] == "l0" && u[18..] == "continuum";
    DigitHead(u);
  }

  lemma DocumentedFlagStreams()
    ensures IsFlagStream("1234567890-sdp-l1-flags") && IsFlagStream("1234567890_sdp_l1_flags_continuum")
  {
    DashedFlagStream();
    UnderscoredFlagStream();
  }

  lemma DashedFlagStream()
    ensures IsFlagStream("1234567890-sdp-l1-flags")
  {
    var f := "1234567890-sdp-l1-flags";
    assert f[..10] == "1234567890" && f[11..14] == "sdp" && f[15..17] == "l1" && f[18..23] == "flags";
    DigitHead(f);
  }

  lemma UnderscoredFlagStream()
    ensures IsFlagStream("1234567890_sdp_l1_flags_continuum")
  {
    var g := "1234567890_sdp_l1_flags_continuum";
    SliceIs(g, 0, "1234567890");
    SliceIs(g, 11, "sdp");
    SliceIs(g, 15, "l1");
    SliceIs(g, 18, "flags");
    SliceIs(g, 24, "continuum");
    DigitHead(g);
  }

  lemma SliceIs(s: string, i: nat, t: string)
    requires i + |t| <= |s| && forall k :: 0 <= k < |t| ==> s[i + k] == t[k]
    ensures s[i..i + |t|] == t
  {
    assert forall k :: 0 <= k < |t| ==> s[i..i + |t|][k] == t[k];
  }

  /** One call the product makes on its metadata handler. */
  datatype Request = Transferring | Received | Failed | RefOriginal(refs: seq<string>) | RefDatastore(refs: seq<string>)
                   | ProdMetRequest(met: Met)

  /** A stream product; `docs` is the core its handler writes to, and
      `requests` the handler calls made, with the record id. */
  class StreamProduct {
    const head: string
    const stream: string
    const name: string
    const rdbs: seq<string>
    var metadataId: Option<string>
    var hasHandler: bool
    var docs: seq<Met>
    var requests: seq<(Request, Option<string>)>

    /** A product made without a Solr endpoint has no handler. */
    constructor (head: string, stream: string)
      ensures this.head == head && this.stream == stream && name == stream
      ensures rdbs == [ReplaceChar(stream, '-', '_') + ".rdb", ReplaceChar(stream, '-', '_') + ".full.rdb"]
      ensures metadataId.None? && !hasHandler && docs == [] && requests == []
    {
      this.head := head;
      this.stream := stream;
      name := stream;
      var base := ReplaceChar(stream, '-', '_');
      rdbs := [base + ".rdb", base + ".full.rdb"];
      metadataId := None;
      hasHandler := false;
      docs := [];
      requests := [];
    }

    /** _product_type, searching STREAM_TYPES in order. */
    method ProductType() returns (r: Result<string>)
      ensures FirstType(STREAM_TYPES, name).Some? ==> r == Ok(FirstType(STREAM_TYPES, name).value)
      ensures FirstType(STREAM_TYPES, name).None? ==> r.Err?
    {
      var i := 0;
      while i < |STREAM_TYPES|
        invariant 0 <= i <= |STREAM_TYPES|
        invariant FirstType(STREAM_TYPES, name) == FirstType(STREAM_TYPES[i..], name)
      {
        assert STREAM_TYPES[i..][1..] == STREAM_TYPES[i + 1..];
        if TypeMatches(STREAM_TYPES[i], name) {
          return Ok(STREAM_TYPES[i]);
        }
        i := i + 1;
      }
      r := Err("ProductError: No product type for " + name);
    }

    /** set_metadata_handler as written: the handler is built from the
        endpoint alone, but the handler's constructor also needs a product
        type and a product name, so the call raises TypeError before
        anything is assigned. */
    method SetMetadataHandlerAsWritten(solrEndpoint: string) returns (r: Result<()>)
      ensures r == Err(HANDLER_TYPE_ERROR)
    {
      r := Err(HANDLER_TYPE_ERROR);
    }

    /** set_metadata_handler, corrected so that the handler is built for the
        product's type and name: the handler is attached first; an existing
        record is read back (several records with the name are an error),
        otherwise a core record of the product's type is created, which
        needs a product type. */
    method SetMetadataHandler(store: seq<Met>) returns (r: Result<()>)
      modifies this
      ensures hasHandler && requests == old(requests)
      ensures |Hits(store, name)| > 1 ==> r.Err? && metadataId == old(metadataId) && docs == store
      ensures |Hits(store, name)| == 1 ==> r.Ok? && metadataId == Some(name) && docs == store
      ensures |Hits(store, name)| == 0 && FirstType(STREAM_TYPES, name).None? ==>
        r.Err? && metadataId == old(metadataId) && docs == store
      ensures |Hits(store, name)| == 0 && FirstType(STREAM_TYPES, name).Some? ==>
        r.Ok? && metadataId == Some(name) &&
        docs == Upsert(store, CoreMet(name, name, FirstType(STREAM_TYPES, name).value)).value
    {
      hasHandler := true;
      docs := store;
      if |Hits(store, name)| > 0 {
        var met := QueryProdMet(store, name);
        if met.Err? {
          return Err(met.error);
        }
        metadataId := IdOf(met.value);
        return Ok(());
      }
      var t := ProductType();
      if t.Err? {
        return Err(t.error);
      }
      var core := CoreMet(name, name, t.value);
      docs := Upsert(store, core).value;
      metadataId := IdOf(core);
      r := Ok(());
    }

    /** Every handler call: ProductError when no handler is set, otherwise
        the call is made with the record id. */
    method Call(req: Request) returns (r: Result<()>)
      modifies this
      ensures !old(hasHandler) ==> r == Err("ProductError: Metadata handler not set for " + name) && requests == old(requests)
      ensures old(hasHandler) ==> r.Ok? && requests == old(requests) + [(req, metadataId)]
      ensures hasHandler == old(hasHandler) && metadataId == old(metadataId) && docs == old(docs)
    {
      if hasHandler {
        requests := requests + [(req, metadataId)];
        r := Ok(());
      } else {
        r := Err("ProductError: Metadata handler not set for " + name);
      }
    }

    /** product_metadata: the extractor runs before the guard, so its error
        comes first; `extracted` is what it produced. */
    method ProductMetadata(extracted: Result<Met>) returns (r: Result<()>)
      modifies this
      ensures extracted.Err? ==> r == Err(extracted.error) && requests == old(requests)
      ensures extracted.Ok? && !old(hasHandler) ==> r.Err? && requests == old(requests)
      ensures extracted.Ok? && old(hasHandler) ==> r.Ok? && requests == old(requests) + [(ProdMetRequest(extracted.value), metadataId)]
      ensures hasHandler == old(hasHandler) && metadataId == old(metadataId) && docs == old(docs)
    {
      if extracted.Err? {
        return Err(extracted.error);
      }
      r := Call(ProdMetRequest(extracted.value));
    }

    /** transfer_status reads `self.met_handler`, which is never set: with a
        handler it raises AttributeError, without one it returns None. */
    method TransferStatus() returns (r: Result<()>)
      ensures hasHandler <==> r.Err?
    {
      if hasHandler {
        r := Err("AttributeError: 'StreamProduct' object has no attribute 'met_handler'");
      } else {
        r := Ok(());
      }
    }
  }

  /** The handler constructor's complaint when given only an endpoint. */
  const HANDLER_TYPE_ERROR := "TypeError: __init__() missing 2 required positional arguments: 'product_type' and 'product_name'"

  /** As written, a product never gets a handler: setting one up raises
      TypeError and leaves the product as it was, so the next handler call
      raises ProductError. */
  method AsWrittenHandlerCalls(head: string, stream: string, endpoint: string, req: Request)
    returns (setUp: Result<()>, call: Result<()>)
    ensures setUp == Err(HANDLER_TYPE_ERROR)
    ensures call == Err("ProductError: Metadata handler not set for " + stream)
  {
    var p := new StreamProduct(head, stream);
    setUp := p.SetMetadataHandlerAsWritten(endpoint);
    call := p.Call(req);
  }

  /** With the corrected set-up, a product whose record exists once gets a
      handler, and the next handler call is made with that record's id. */
  method CorrectedHandlerCalls(head: string, stream: string, store: seq<Met>, req: Request)
    returns (setUp: Result<()>, call: Result<()>, made: seq<(Request, Option<string>)>)
    requires |Hits(store, stream)| == 1
    ensures setUp.Ok? && call.Ok? && made == [(req, Some(stream))]
  {
    var p := new StreamProduct(head, stream);
    setUp := p.SetMetadataHandler(store);
    call := p.Call(req);
    made := p.requests;
  }

  /** The two RDB files of a stream share its name with '-' written as '_'. */
  lemma RdbNames(stream: string)
    ensures var base := ReplaceChar(stream, '-', '_');
      '-' !in base && |base| == |stream| && EndsWith(base + ".rdb", ".rdb") && EndsWith(base + ".full.rdb", ".full.rdb")
  {
    var base := ReplaceChar(stream, '-', '_');
    assert (base + ".rdb")[|base + ".rdb"| - 4..] == ".rdb";
    assert (base + ".full.rdb")[|base + ".full.rdb"| - 9..] == ".full.rdb";
  }
}
