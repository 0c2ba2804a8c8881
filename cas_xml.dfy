// The cas:metadata document every metadata extractor writes: one keyval
// element per metadata key, holding the key and one val element per value.
// A list value gives one val per element, any other value exactly one.

module CasXml {
  import opened Wrappers
  import opened Strs
  import opened Metadata

  const CAS_NAMESPACE := "http://oodt.jpl.nasa.gov/1.0/cas"

  /** One keyval element: the key's text and the texts of its vals (a val
      whose text is None is an empty element). */
  datatype KeyVal = KeyVal(key: string, vals: seq<Option<string>>)

  /** The cas:metadata element with its xmlns:cas attribute. */
  datatype CasMetadata = CasMetadata(xmlns: string, keyvals: seq<KeyVal>)

  /** A list holding an integer: ElementTree.tostring cannot serialise its
      vals and raises TypeError.  An empty list writes no val at all. */
  predicate Unwritable(v: MetValue)
  {
    v.Ints? && v.ns != []
  }

  /** The vals of one metadata value. */
  function Vals(v: MetValue): (r: Result<seq<Option<string>>>)
    ensures v.Texts? ==> r.Ok? && |r.value| == |v.items| && forall i :: 0 <= i < |v.items| ==> r.value[i] == Some(v.items[i])
    ensures v.Text? ==> r == Ok([Some(v.s)])
    ensures v.Null? ==> r == Ok([None])
    ensures v.Ints? && v.ns == [] ==> r == Ok([])
    ensures r.Err? <==> Unwritable(v)
  {
    match v
    case Null => Ok([None])
    case Text(s) => Ok([Some(s)])
    case Texts(items) => Ok(seq(|items|, i requires 0 <= i < |items| => Some(items[i])))
    case Ints(ns) => if ns == [] then Ok([]) else Err("TypeError: cannot serialize int")
  }

  /** The keyvals for the keys of `order`, in that order. */
  function KeyVals(met: Met, order: seq<string>): (r: Result<seq<KeyVal>>)
    requires forall k :: k in order ==> k in met
    ensures r.Ok? ==> (|r.value| == |order| &&
      forall i :: 0 <= i < |order| ==> r.value[i].key == order[i] && Vals(met[order[i]]) == Ok(r.value[i].vals))
    ensures r.Err? <==> exists i :: 0 <= i < |order| && Unwritable(met[order[i]])
  {
    if order == [] then Ok([])
    else
      var init := order[..|order| - 1];
      var k := order[|order| - 1];
      assert forall i :: 0 <= i < |init| ==> init[i] == order[i];
      var rest := KeyVals(met, init);
      var v := Vals(met[k]);
      if rest.Err? then Err(rest.error)
      else if v.Err? then Err(v.error)
      else Ok(rest.value + [KeyVal(k, v.value)])
  }

  /** MetExtractor.__str__ before serialisation; `order` is the dictionary's
      key order, each key once. */
  function ToXml(met: Met, order: seq<string>): (r: Result<CasMetadata>)
    requires forall k :: k in order <==> k in met
    requires NoDup(order)
  {
    var kvs := KeyVals(met, order);
    if kvs.Err? then Err(kvs.error) else Ok(CasMetadata(CAS_NAMESPACE, kvs.value))
  }

  /** One keyval per key, each key once; a list gives one val per element and
      any other value exactly one; the document fails only on a list holding
      an integer. */
  lemma ToXmlShape(met: Met, order: seq<string>)
    requires forall k :: k in order <==> k in met
    requires NoDup(order)
    ensures var r := ToXml(met, order);
      (r.Ok? <==> forall k :: k in met ==> !Unwritable(met[k])) &&
      (r.Ok? ==> (r.value.xmlns == CAS_NAMESPACE && |r.value.keyvals| == |met| &&
        (forall i, j :: 0 <= i < j < |r.value.keyvals| ==> r.value.keyvals[i].key != r.value.keyvals[j].key) &&
        forall i :: 0 <= i < |r.value.keyvals| ==>
          var kv := r.value.keyvals[i];
          kv.key in met &&
          (met[kv.key].Texts? ==> |kv.vals| == |met[kv.key].items|) &&
          (met[kv.key].Ints? ==> kv.vals == []) &&
          (met[kv.key].Text? || met[kv.key].Null? ==> |kv.vals| == 1)))
  {
    var r := ToXml(met, order);
    if r.Ok? {
      DistinctKeys(order);
      assert met.Keys == (set k | k in order);
      assert |met| == |met.Keys|;
    } else {
      var i :| 0 <= i < |order| && Unwritable(met[order[i]]);
      assert order[i] in met;
    }
  }

  /** A duplicate-free listing of a map's keys has the map's size. */
  lemma {:induction false} DistinctKeys(order: seq<string>)
    requires NoDup(order)
    ensures |set k | k in order| == |order|
  {
    if order != [] {
      var init := order[..|order| - 1];
      assert forall i :: 0 <= i < |init| ==> init[i] == order[i];
      DistinctKeys(init);
      assert (set k | k in order) == (set k | k in init) + {order[|order| - 1]};
    }
  }
}
