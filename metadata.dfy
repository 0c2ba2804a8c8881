// The metadata record shared by the extractors, the metadata handlers and
// the Solr store: a dictionary from field names to values.

module Metadata {

  /** A metadata value: None, a string, a list of strings, or a list of
      integers (the reference sizes). */
  datatype MetValue = Null | Text(s: string) | Texts(items: seq<string>) | Ints(ns: seq<int>)

  type Met = map<string, MetValue>

  /** dict.update: the keys of `extra` win. */
  function Update(m: Met, extra: Met): (r: Met)
    ensures r.Keys == m.Keys + extra.Keys
    ensures forall k :: k in extra ==> r[k] == extra[k]
    ensures forall k :: k in m && k !in extra ==> r[k] == m[k]
  {
    m + extra
  }

  /** dict.pop(k, None). */
  function Pop(m: Met, k: string): (r: Met)
    ensures k !in r
    ensures forall j :: j != k ==> (j in r <==> j in m) && (j in r ==> r[j] == m[j])
  {
    m - {k}
  }

  /** The text of a string field, if the field is a string. */
  function TextOf(m: Met, k: string): string
  {
    if k in m && m[k].Text? then m[k].s else ""
  }
}
