// The metadata handler: builds OODT-style product records and keeps them in
// a Solr core.  The core is modelled as the sequence of its documents; adding
// a document replaces any document with the same id, as Solr's unique key
// does, and a query by id returns every document with that id.

module MetHandler {
  import opened Wrappers
  import opened Strs
  import opened Metadata

  const ID := "id"
  const STATUS := "CAS.ProductTransferStatus"
  const RECEIVED_TIME := "CAS.ProductReceivedTime"
  const STRUCTURE := "CAS.ProductStructure"
  const REF_ORIGINAL := "CAS.ReferenceOriginal"
  const REF_SIZE := "CAS.ReferenceFileSize"
  const REF_MIME := "CAS.ReferenceMimeType"
  const REF_DATASTORE := "CAS.ReferenceDatastore"
  const COPY_FIELD := "Observer_lowercase"
  const DEFAULT_MIME := "application/x-data"

  /** The id of a record, when it has a string id. */
  function IdOf(m: Met): Option<string>
  {
    if ID in m && m[ID].Text? then Some(m[ID].s) else None
  }

  /** The documents a query 'id:<id>' returns, in index order. */
  function Hits(docs: seq<Met>, id: string): (r: seq<Met>)
    ensures |r| <= |docs|
    ensures forall d :: d in r <==> d in docs && IdOf(d) == Some(id)
  {
    if docs == [] then []
    else
      var rest := Hits(docs[..|docs| - 1], id);
      var d := docs[|docs| - 1];
      assert docs == docs[..|docs| - 1] + [d];
      if IdOf(d) == Some(id) then rest + [d] else rest
  }

  /** get_prod_met on a store: {} without hits, an error for several hits,
      otherwise the single document without the copy field. */
  function QueryProdMet(docs: seq<Met>, id: string): (r: Result<Met>)
    ensures r.Err? <==> |Hits(docs, id)| > 1
    ensures |Hits(docs, id)| == 0 ==> r == Ok(map[])
    ensures |Hits(docs, id)| == 1 ==>
      r.Ok? && COPY_FIELD !in r.value && IdOf(r.value) == Some(id)
      && (forall k :: k != COPY_FIELD ==> (k in r.value <==> k in Hits(docs, id)[0]))
      && forall k :: k in r.value ==> r.value[k] == Hits(docs, id)[0][k]
    ensures r.Ok? && r.value != map[] ==> IdOf(r.value) == Some(id)
  {
    var hits := Hits(docs, id);
    if |hits| == 0 then Ok(map[])
    else if |hits| > 1 then Err("MetaDataHandlerException: " + NatToString(|hits|) + " returned for id:" + id)
    else
      assert hits[0] in hits;
      Ok(Pop(hits[0], COPY_FIELD))
  }

  /** solr.add of one document: replaces every document with the same id; a
      document without an id is refused. */
  function Upsert(docs: seq<Met>, met: Met): (r: Result<seq<Met>>)
    ensures r.Ok? <==> IdOf(met).Some?
    ensures r.Ok? ==> Hits(r.value, IdOf(met).value) == [met]
    ensures r.Ok? ==> forall id :: Some(id) != IdOf(met) ==> Hits(r.value, id) == Hits(docs, id)
  {
    if IdOf(met).None? then Err("SolrError: Document is missing mandatory uniqueKey field: id")
    else
      var id := IdOf(met).value;
      var kept := Without(docs, id);
      HitsAppend(kept, met, id);
      forall other | Some(other) != IdOf(met) ensures Hits(kept + [met], other) == Hits(docs, other) {
        HitsAppend(kept, met, other);
      }
      Ok(kept + [met])
  }

  function Without(docs: seq<Met>, id: string): (r: seq<Met>)
    ensures Hits(r, id) == []
    ensures forall other :: other != id ==> Hits(r, other) == Hits(docs, other)
  {
    if docs == [] then []
    else
      var init := docs[..|docs| - 1];
      var d := docs[|docs| - 1];
      var rest := Without(init, id);
      if IdOf(d) == Some(id) then rest
      else
        forall other | other != id ensures Hits(rest + [d], other) == Hits(docs, other) {
          HitsAppend(rest, d, other);
        }
        HitsAppend(rest, d, id);
        rest + [d]
  }

  lemma HitsAppend(docs: seq<Met>, d: Met, id: string)
    ensures Hits(docs + [d], id) == if IdOf(d) == Some(id) then Hits(docs, id) + [d] else Hits(docs, id)
  {
    assert (docs + [d])[..|docs + [d]| - 1] == docs;
  }

  /** After a document is added, get_prod_met of its id returns it, without
      the copy field. */
  lemma {:induction false} QueryAfterUpsert(docs: seq<Met>, met: Met)
    requires IdOf(met).Some?
    ensures Upsert(docs, met).Ok?
    ensures QueryProdMet(Upsert(docs, met).value, IdOf(met).value) == Ok(Pop(met, COPY_FIELD))
  {
    assert Hits(Upsert(docs, met).value, IdOf(met).value) == [met];
  }

  /** The core record of create_core_met. */
  function CoreMet(productId: string, productName: string, productType: string): (m: Met)
    ensures m.Keys == {ID, "CAS.ProductId", "CaptureStreamId", "CAS.ProductName", "CAS.ProductTypeId", "CAS.ProductTypeName"}
    ensures m[ID] == m["CAS.ProductId"] == m["CaptureStreamId"] == Text(productId)
    ensures m["CAS.ProductTypeId"] == Text("urn:kat:" + productType)
    ensures m["CAS.ProductTypeName"] == Text(productType) && m["CAS.ProductName"] == Text(productName)
    ensures IdOf(m) == Some(productId)
  {
    map[ID := Text(productId),
        "CAS.ProductId" := Text(productId),
        "CaptureStreamId" := Text(productId),
        "CAS.ProductName" := Text(productName),
        "CAS.ProductTypeId" := Text("urn:kat:" + productType),
        "CAS.ProductTypeName" := Text(productType)]
  }

  /** A status set on a record is kept, with the record's id, when the copy
      field is dropped on reading it back. */
  lemma StatusSurvivesPop(m: Met, status: string)
    ensures var p := Pop(m[STATUS := Text(status)], COPY_FIELD);
      STATUS in p && p[STATUS] == Text(status) && IdOf(p) == IdOf(m) && IdOf(m[STATUS := Text(status)]) == IdOf(m)
  {
    assert STATUS != COPY_FIELD && ID != COPY_FIELD && ID != STATUS;
  }

  /** A core record read back keeps its id. */
  lemma CoreIdAfterPop(productId: string, productName: string, productType: string)
    ensures IdOf(Pop(CoreMet(productId, productName, productType), COPY_FIELD)) == Some(productId)
  {
    assert ID != COPY_FIELD;
  }

  /** A core record carries no transfer status. */
  lemma CoreMetLacksStatus(productId: string, productName: string, productType: string)
    ensures STATUS !in CoreMet(productId, productName, productType)
  {
  }

  /** The product id: the one supplied when it is non-empty, else a fresh uuid. */
  function ChooseProductId(supplied: string, freshUuid: string): (id: string)
    ensures supplied != "" ==> id == supplied
    ensures supplied == "" ==> id == freshUuid
  {
    if supplied != "" then supplied else freshUuid
  }

  /** file_url: the path as a file:// URL (urlunparse of an empty netloc). */
  function FileUrl(p: string): (u: string)
    ensures StartsWith(u, "file://")
    ensures StartsWith(p, "/") ==> u == "file://" + p
  {
    if p == "" then "file://"
    else if p[0] == '/' then "file://" + p
    else "file:///" + p
  }

  function FileUrls(ps: seq<string>): (r: seq<string>)
    ensures |r| == |ps| && forall i :: 0 <= i < |ps| ==> r[i] == FileUrl(ps[i])
  {
    if ps == [] then [] else [FileUrl(ps[0])] + FileUrls(ps[1..])
  }

  /** The sizes of the references, or the error os.path.getsize raises. */
  function Sizes(ps: seq<string>, fileSizes: map<string, nat>): (r: Result<seq<int>>)
    ensures r.Ok? <==> forall i :: 0 <= i < |ps| ==> ps[i] in fileSizes
    ensures r.Ok? ==> |r.value| == |ps| && forall i :: 0 <= i < |ps| ==> r.value[i] == fileSizes[ps[i]]
  {
    if ps == [] then Ok([])
    else if ps[0] !in fileSizes then Err("OSError: No such file or directory: " + ps[0])
    else
      var rest := Sizes(ps[1..], fileSizes);
      if rest.Err? then rest else Ok([fileSizes[ps[0]] as int] + rest.value)
  }

  function MimeTypes(ps: seq<string>, guessed: map<string, string>): (r: seq<string>)
    ensures |r| == |ps|
    ensures forall i :: 0 <= i < |ps| ==>
      r[i] == if ps[i] in guessed && guessed[ps[i]] != "" then guessed[ps[i]] else DEFAULT_MIME
  {
    if ps == [] then []
    else
      var first := if ps[0] in guessed && guessed[ps[0]] != "" then guessed[ps[0]] else DEFAULT_MIME;
      [first] + MimeTypes(ps[1..], guessed)
  }

  /** The record after add_ref_original, before it is stored.  `fileSizes`
      stands for os.path.getsize and `guessed` for mimetypes.guess_type. */
  function RefOriginalMet(met: Met, refs: seq<string>, fileSizes: map<string, nat>, guessed: map<string, string>): (r: Result<Met>)
    ensures refs == [] ==> r.Err?
    ensures r.Ok? <==> refs != [] && Sizes(refs, fileSizes).Ok?
    ensures r.Ok? ==>
      r.value.Keys == met.Keys + {STRUCTURE, REF_ORIGINAL, REF_SIZE, REF_MIME}
      && r.value[STRUCTURE] == Text(if |refs| == 1 then "Flat" else "Hierarchical")
      && r.value[REF_ORIGINAL] == Texts(FileUrls(Sort(refs)))
      && r.value[REF_SIZE].Ints? && |r.value[REF_SIZE].ns| == |refs|
      && r.value[REF_MIME] == Texts(MimeTypes(refs, guessed))
      && (forall k :: k in met && k !in {STRUCTURE, REF_ORIGINAL, REF_SIZE, REF_MIME} ==> r.value[k] == met[k])
  {
    if refs == [] then Err("MetaDataHandlerException: No product in []")
    else
      var sizes := Sizes(refs, fileSizes);
      if sizes.Err? then Err(sizes.error)
      else
        Ok(met[STRUCTURE := Text(if |refs| == 1 then "Flat" else "Hierarchical")]
             [REF_ORIGINAL := Texts(FileUrls(Sort(refs)))]
             [REF_SIZE := Ints(sizes.value)]
             [REF_MIME := Texts(MimeTypes(refs, guessed))])
  }

  /** replace_file_s3 for the file:// URLs add_ref_original writes: the scheme
      becomes s3 and every '/data' in the path becomes '/'. */
  function S3Url(url: string): string
  {
    var path := if StartsWith(url, "file://") then url[7..] else url;
    "s3:" + Replace(path, "/data", "/")
  }

  function S3Urls(urls: seq<string>): (r: seq<string>)
    ensures |r| == |urls| && forall i :: 0 <= i < |urls| ==> r[i] == S3Url(urls[i])
  {
    if urls == [] then [] else [S3Url(urls[0])] + S3Urls(urls[1..])
  }

  /** The record after add_inferred_ref_datastore: unchanged without original
      references, otherwise one s3 reference per original reference. */
  function InferredDatastoreMet(met: Met): (r: Met)
    ensures REF_ORIGINAL !in met ==> r == met
    ensures REF_ORIGINAL in met && met[REF_ORIGINAL].Texts? ==>
      r == met[REF_DATASTORE := Texts(S3Urls(met[REF_ORIGINAL].items))]
  {
    if REF_ORIGINAL !in met then met
    else
      var refs := met[REF_ORIGINAL];
      var items := if refs.Texts? then refs.items else if refs.Text? then [refs.s] else [];
      met[REF_DATASTORE := Texts(S3Urls(items))]
  }

  /** The record after add_ref_datastore: the sorted datastore references. */
  function RefDatastoreMet(met: Met, refs: seq<string>): (r: Met)
    ensures r.Keys == met.Keys + {REF_DATASTORE}
    ensures r[REF_DATASTORE].Texts? && Sorted(r[REF_DATASTORE].items)
      && multiset(r[REF_DATASTORE].items) == multiset(refs)
    ensures forall k :: k in met && k != REF_DATASTORE ==> r[k] == met[k]
  {
    met[REF_DATASTORE := Texts(Sort(refs))]
  }

  /** The record after add_prod_met: the product metadata without
      'ProductName' merged over the record. */
  function ProdMet(met: Met, prodMet: Met): (r: Met)
    ensures "ProductName" in r <==> "ProductName" in met
    ensures "ProductName" in met ==> r["ProductName"] == met["ProductName"]
    ensures forall k :: k != "ProductName" && k in prodMet ==> k in r && r[k] == prodMet[k]
    ensures forall k :: k in met && k !in prodMet ==> k in r && r[k] == met[k]
    ensures r.Keys == met.Keys + (prodMet.Keys - {"ProductName"})
  {
    Update(met, Pop(prodMet, "ProductName"))
  }

  /** The record set_product_received stores. */
  function ReceivedMet(met: Met, now: string): (r: Met)
    ensures r.Keys == met.Keys + {STATUS, RECEIVED_TIME}
    ensures r[STATUS] == Text("RECEIVED") && r[RECEIVED_TIME] == Text(now)
    ensures forall k :: k in met && k != STATUS && k != RECEIVED_TIME ==> r[k] == met[k]
  {
    met[RECEIVED_TIME := Text(now)][STATUS := Text("RECEIVED")]
  }

  /** The record set_product_created stores. */
  function CreatedMet(met: Met): (r: Met)
    ensures r.Keys == met.Keys + {STATUS, RECEIVED_TIME}
    ensures r[STATUS] == Text("CREATED") && r[RECEIVED_TIME] == Text("")
    ensures forall k :: k in met && k != STATUS && k != RECEIVED_TIME ==> r[k] == met[k]
  {
    met[RECEIVED_TIME := Text("")][STATUS := Text("CREATED")]
  }

  /** The transfer status field of a record, as met.get(...). */
  function StateOf(met: Met): (r: Option<MetValue>)
    ensures r.Some? <==> STATUS in met
  {
    if STATUS in met then Some(met[STATUS]) else None
  }

  /** A metadata handler bound to one product and to the Solr core `docs`. */
  class Handler {
    var docs: seq<Met>
    const productType: string
    const productName: string
    const productId: string

    constructor (store: seq<Met>, productType: string, productName: string, suppliedId: string, freshUuid: string)
      ensures docs == store && this.productType == productType && this.productName == productName
      ensures productId == ChooseProductId(suppliedId, freshUuid)
    {
      docs := store;
      this.productType := productType;
      this.productName := productName;
      productId := ChooseProductId(suppliedId, freshUuid);
    }

    /** get_prod_met: an empty id means this handler's product id. */
    function GetProdMet(prodId: string): (r: Result<Met>)
      reads this
      ensures r == QueryProdMet(docs, if prodId == "" then productId else prodId)
    {
      QueryProdMet(docs, if prodId == "" then productId else prodId)
    }

    /** get_state: the transfer status of this handler's record. */
    function GetState(): (r: Result<Option<MetValue>>)
      reads this
      ensures r.Err? <==> GetProdMet("").Err?
      ensures r.Ok? ==> r.value == StateOf(GetProdMet("").value)
    {
      var met := GetProdMet("");
      if met.Err? then Err(met.error) else Ok(StateOf(met.value))
    }

    /** Adds `met` to the core and reads the record back by its id. */
    method Store(met: Met) returns (r: Result<Met>)
      modifies this
      ensures Upsert(old(docs), met).Err? ==> docs == old(docs) && r.Err?
      ensures Upsert(old(docs), met).Ok? ==>
        docs == Upsert(old(docs), met).value && r == Ok(Pop(met, COPY_FIELD))
    {
      var up := Upsert(docs, met);
      if up.Err? {
        r := Err(up.error);
      } else {
        docs := up.value;
        QueryAfterUpsert(old(docs), met);
        r := QueryProdMet(docs, IdOf(met).value);
      }
    }

    method CreateCoreMet() returns (r: Result<Met>)
      modifies this
      ensures docs == Upsert(old(docs), CoreMet(productId, productName, productType)).value
      ensures r == Ok(Pop(CoreMet(productId, productName, productType), COPY_FIELD))
    {
      r := Store(CoreMet(productId, productName, productType));
    }

    method SetProductReceived(met: Met, now: string) returns (r: Result<Met>)
      modifies this
      ensures Upsert(old(docs), ReceivedMet(met, now)).Ok? ==>
        docs == Upsert(old(docs), ReceivedMet(met, now)).value && r == Ok(Pop(ReceivedMet(met, now), COPY_FIELD))
      ensures IdOf(met).None? ==> r.Err? && docs == old(docs)
    {
      r := Store(ReceivedMet(met, now));
    }

    method SetProductCreated(met: Met) returns (r: Result<Met>)
      modifies this
      ensures Upsert(old(docs), CreatedMet(met)).Ok? ==>
        docs == Upsert(old(docs), CreatedMet(met)).value && r == Ok(Pop(CreatedMet(met), COPY_FIELD))
      ensures IdOf(met).None? ==> r.Err? && docs == old(docs)
    {
      r := Store(CreatedMet(met));
    }

    /** set_product_status: uses `met` when it is non-empty, else the stored
        record, else a freshly created core record; then sets the status. */
    method SetProductStatus(status: string, met: Met) returns (r: Result<Met>)
      modifies this
      ensures met != map[] && IdOf(met).Some? ==>
        docs == Upsert(old(docs), met[STATUS := Text(status)]).value
        && r == Ok(Pop(met[STATUS := Text(status)], COPY_FIELD))
      ensures met == map[] && old(GetProdMet("")).Err? ==> r.Err? && docs == old(docs)
      ensures met == map[] && old(GetProdMet("")) == Ok(map[]) ==>
        r.Ok? && STATUS in r.value && r.value[STATUS] == Text(status) && IdOf(r.value) == Some(productId)
      ensures r.Ok? ==> STATUS in r.value && r.value[STATUS] == Text(status)
    {
      if met == map[] {
        r := SetStoredStatus(status);
      } else {
        r := Store(met[STATUS := Text(status)]);
      }
    }

    /** set_product_status without a record: the stored one is read, and a
        new core record is made when there is none. */
    method SetStoredStatus(status: string) returns (r: Result<Met>)
      modifies this
      ensures old(GetProdMet("")).Err? ==> r.Err? && docs == old(docs)
      ensures old(GetProdMet("")) == Ok(map[]) ==>
        r.Ok? && STATUS in r.value && r.value[STATUS] == Text(status) && IdOf(r.value) == Some(productId)
      ensures r.Ok? ==> STATUS in r.value && r.value[STATUS] == Text(status)
    {
      var got := GetProdMet("");
      if got.Err? {
        r := Err(got.error);
        return;
      }
      var m := got.value;
      if m == map[] {
        var core := CreateCoreMet();
        m := core.value;
        CoreIdAfterPop(productId, productName, productType);
      }
      StatusSurvivesPop(m, status);
      r := Store(m[STATUS := Text(status)]);
    }

    method AddBucketStats(met: Met, bucketMet: Met) returns (r: Result<Met>)
      modifies this
      ensures Upsert(old(docs), Update(met, bucketMet)).Ok? ==>
        docs == Upsert(old(docs), Update(met, bucketMet)).value
        && r == Ok(Pop(Update(met, bucketMet), COPY_FIELD))
    {
      r := Store(Update(met, bucketMet));
    }

    method AddRefOriginal(met: Met, refs: seq<string>, fileSizes: map<string, nat>, guessed: map<string, string>)
      returns (r: Result<Met>)
      modifies this
      ensures RefOriginalMet(met, refs, fileSizes, guessed).Err? ==> r.Err? && docs == old(docs)
      ensures RefOriginalMet(met, refs, fileSizes, guessed).Ok? ==>
        var m := RefOriginalMet(met, refs, fileSizes, guessed).value;
        (Upsert(old(docs), m).Ok? ==> docs == Upsert(old(docs), m).value && r == Ok(Pop(m, COPY_FIELD)))
    {
      var m := RefOriginalMet(met, refs, fileSizes, guessed);
      if m.Err? {
        r := Err(m.error);
      } else {
        r := Store(m.value);
      }
    }

    method AddInferredRefDatastore(met: Met) returns (r: Result<Met>)
      modifies this
      ensures REF_ORIGINAL !in met ==> r == Ok(met) && docs == old(docs)
      ensures REF_ORIGINAL in met && Upsert(old(docs), InferredDatastoreMet(met)).Ok? ==>
        docs == Upsert(old(docs), InferredDatastoreMet(met)).value
        && r == Ok(Pop(InferredDatastoreMet(met), COPY_FIELD))
    {
      if REF_ORIGINAL !in met {
        r := Ok(met);
      } else {
        r := Store(InferredDatastoreMet(met));
      }
    }

    method AddRefDatastore(met: Met, refs: seq<string>) returns (r: Result<Met>)
      modifies this
      ensures Upsert(old(docs), RefDatastoreMet(met, refs)).Ok? ==>
        docs == Upsert(old(docs), RefDatastoreMet(met, refs)).value
        && r == Ok(Pop(RefDatastoreMet(met, refs), COPY_FIELD))
    {
      r := Store(RefDatastoreMet(met, refs));
    }

    method AddProdMet(met: Met, prodMet: Met) returns (r: Result<Met>)
      modifies this
      ensures Upsert(old(docs), ProdMet(met, prodMet)).Ok? ==>
        docs == Upsert(old(docs), ProdMet(met, prodMet)).value
        && r == Ok(Pop(ProdMet(met, prodMet), COPY_FIELD))
    {
      r := Store(ProdMet(met, prodMet));
    }
  }

  /** A stored core record reads back with its transfer status absent: a new
      product has no state until a status is set. */
  lemma CoreMetHasNoState(productId: string, productName: string, productType: string)
    ensures StateOf(Pop(CoreMet(productId, productName, productType), COPY_FIELD)).None?
  {
  }

  /** The datastore reference inferred for a file under /data: the '/data'
      prefix is dropped, so the first directory below it becomes the bucket. */
  lemma {:induction false} InferredBucket(p: string)
    requires StartsWith(p, "/") && !Contains(p, "/data")
    ensures S3Url(FileUrl("/data" + p)) == "s3:/" + p
  {
    var u := "/data" + p;
    assert FileUrl(u) == "file://" + u;
    assert ("file://" + u)[7..] == u;
    assert u[..5] == "/data" && u[5..] == p;
    ReplaceAbsent(p, "/data", "/");
  }
}
