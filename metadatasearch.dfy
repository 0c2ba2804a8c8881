// The older search client over the same index.  It rewrites dates as the
// Solr client does, but bracketing differs: a range is wrapped in '[' ']'
// and upper-cased only when it has neither bracket; a half-bracketed
// range is sent as it is.  Keyword filters get their field names in the
// search loop itself.

module MetadataSearch {
  import opened Wrappers
  import opened Strs
  import opened Metadata
  import SolrClients

  /** The wrapping in search: both brackets and upper case, or nothing. */
  function WrapBare(s: string): (r: string)
    ensures r == s <==> (StartsWith(s, "[") || EndsWith(s, "]"))
    ensures r != s ==> r == "[" + Upper(s) + "]"
  {
    if !StartsWith(s, "[") && !EndsWith(s, "]") then "[" + Upper(s) + "]" else s
  }

  /** _to_solr_date_format, which is _date_to_ISO8601. */
  method ToSolrDateFormat(dateRange: string, iso: string -> string) returns (r: string)
    ensures r == SolrClients.IsoDates(dateRange, iso)
  {
    r := SolrClients.DateToIso8601(dateRange, iso);
  }

  /** The terms of one search: text, then the date range, then the keyword
      filters. */
  function SearchTerms(text: string, dateRange: string, kwargs: seq<(string, string)>, iso: string -> string): seq<string>
  {
    (if text != "" then ["text:" + text] else []) +
    (if dateRange != "" then ["StartTime:" + SolrClients.IsoDates(WrapBare(dateRange), iso)] else []) +
    SolrClients.KwargTerms(kwargs)
  }

  /** A half-bracketed range without dates, such as "[* to now", keeps its
      case and stays unclosed. */
  lemma HalfBracketSentAsIs(s: string, iso: string -> string)
    requires s != [] && StartsWith(s, "[") && '/' !in s
    ensures SearchTerms("", s, [], iso) == ["StartTime:" + s]
  {
    assert WrapBare(s) == s;
    SolrClients.NoDatesUnchanged(s, iso);
    assert SolrClients.KwargTerms([]) == [];
  }

  /** On a range with neither bracket, both clients send the same terms. */
  lemma AgreesOnBareRanges(text: string, dateRange: string, kwargs: seq<(string, string)>, iso: string -> string)
    requires !StartsWith(dateRange, "[") && !EndsWith(dateRange, "]")
    ensures SearchTerms(text, dateRange, kwargs, iso) == SolrClients.SearchTerms(text, dateRange, kwargs, iso)
  {
    if dateRange != "" {
      assert SolrClients.Bracketed(dateRange) == "[" + dateRange + "]";
      SolrClients.UpperConcat("[" + dateRange, "]");
      SolrClients.UpperConcat("[", dateRange);
      assert Upper("[") == "[" && Upper("]") == "]";
    }
  }

  /** Without text, date range or filters the query is '*:*'; a text
      leads the query. */
  lemma SearchQueryShape(text: string, dateRange: string, kwargs: seq<(string, string)>, iso: string -> string)
    ensures var q := SolrClients.QueryOf(SearchTerms(text, dateRange, kwargs, iso));
      (text == "" && dateRange == "" && kwargs == [] ==> q == "*:*") &&
      (text != "" ==> StartsWith(q, "text:" + text))
  {
    var parts := SearchTerms(text, dateRange, kwargs, iso);
    if parts != [] { SolrClients.JoinStarts(parts); }
  }

  const NO_SOLR := "AttributeError: 'KatSdpData' object has no attribute '_solr'"

  class KatSdpData {
    var url: string
    /** Whether connect has opened the index. */
    var connected: bool
    var query: Option<string>
    /** The last answer (_results). */
    var cached: Option<SolrClients.SolrResponse>
    /** results.hits and results.docs. */
    var hits: Option<int>
    var docs: Option<seq<Met>>

    constructor (url: string)
      ensures this.url == url && !connected && query.None? && cached.None? && hits.None? && docs.None?
    {
      this.url := url;
      connected := false;
      query := None;
      cached := None;
      hits := None;
      docs := None;
    }

    /** connect: a new url replaces the old one and drops the last answer;
        without one the index is reopened at the same url. */
    method Connect(newUrl: string)
      modifies this
      ensures connected
      ensures newUrl == "" ==> url == old(url) && cached == old(cached)
      ensures newUrl != "" ==> url == newUrl && cached.None?
      ensures query == old(query) && hits == old(hits) && docs == old(docs)
    {
      if newUrl != "" {
        url := newUrl;
        cached := None;
      }
      connected := true;
    }

    /** search: one term per filter, appended in order; the query is
        recorded before the index is asked. */
    method Search(text: string, dateRange: string, rows: int, kwargs: seq<(string, string)>,
                  iso: string -> string, solr: (string, int) -> SolrClients.SolrResponse) returns (r: Result<()>)
      modifies this
      ensures query == Some(SolrClients.QueryOf(SearchTerms(text, dateRange, kwargs, iso)))
      ensures url == old(url) && connected == old(connected)
      ensures !connected ==> r == Err(NO_SOLR) && cached == old(cached) && hits == old(hits) && docs == old(docs)
      ensures connected ==> (r == Ok(()) && cached == Some(solr(query.value, rows)) &&
                             hits == Some(cached.value.hits) && docs == Some(cached.value.docs))
    {
      var parts: seq<string> := [];
      if text != "" {
        parts := parts + ["text:" + text];
      }
      if dateRange != "" {
        var d := ToSolrDateFormat(WrapBare(dateRange), iso);
        parts := parts + ["StartTime:" + d];
      }
      ghost var head := parts;
      assert head == (if text != "" then ["text:" + text] else []) +
        (if dateRange != "" then ["StartTime:" + SolrClients.IsoDates(WrapBare(dateRange), iso)] else []);
      parts := AppendKwargTerms(parts, kwargs);
      query := Some(SolrClients.QueryOf(parts));
      if !connected {
        r := Err(NO_SOLR);
        return;
      }
      var answer := solr(SolrClients.QueryOf(parts), rows);
      cached := Some(answer);
      hits := Some(answer.hits);
      docs := Some(answer.docs);
      r := Ok(());
    }
  }

  /** The filter loop of search: one field-named term per pair, in order. */
  method AppendKwargTerms(head: seq<string>, kwargs: seq<(string, string)>) returns (parts: seq<string>)
    ensures parts == head + SolrClients.KwargTerms(kwargs)
  {
    parts := head;
    var i := 0;
    while i < |kwargs|
      invariant 0 <= i <= |kwargs|
      invariant parts == head + SolrClients.KwargTerms(kwargs[..i])
    {
      var (k, v) := kwargs[i];
      KwargTermsSnoc(kwargs, i);
      parts := parts + [SolrClients.KwargTerm(k, v)];
      i := i + 1;
    }
    assert kwargs[..|kwargs|] == kwargs;
  }

  lemma KwargTermsSnoc(kwargs: seq<(string, string)>, i: nat)
    requires i < |kwargs|
    ensures SolrClients.KwargTerms(kwargs[..i + 1]) == SolrClients.KwargTerms(kwargs[..i]) + [SolrClients.KwargTerm(kwargs[i].0, kwargs[i].1)]
  {
    var a, b := SolrClients.KwargTerms(kwargs[..i + 1]), SolrClients.KwargTerms(kwargs[..i]) + [SolrClients.KwargTerm(kwargs[i].0, kwargs[i].1)];
    assert |a| == |b|;
    forall j | 0 <= j < |a|
      ensures a[j] == b[j]
    {
      assert kwargs[..i + 1][j] == kwargs[j];
    }
  }
}
