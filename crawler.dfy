// The stream crawler: the entries of a listing (local sub-directories or S3
// bucket names, an oracle here) that name a capture block, ^[0-9]{10}$, and
// those that name a capture stream, ^[0-9]{10}[-_].*$, each sorted; every
// stream whose capture block is also listed becomes a stream product.

module Crawler {
  import opened Strs

  /** The two regular expressions of the stream crawler. */
  datatype Pattern = HeadPattern | StreamsPattern

  const HEAD := "head"
  const STREAMS := "streams"

  /** ^[0-9]{10}[-_].*$ */
  predicate IsStreamEntry(d: string)
  {
    |d| >= 11 && TenDigitHead(d) && (d[10] == '-' || d[10] == '_')
  }

  predicate Matches(p: Pattern, d: string)
  {
    match p
    case HeadPattern => IsCaptureBlockId(d)
    case StreamsPattern => IsStreamEntry(d)
  }

  function Filter(contents: seq<string>, p: Pattern): (r: seq<string>)
    ensures forall x :: x in r <==> x in contents && Matches(p, x)
    ensures |r| <= |contents|
  {
    if contents == [] then []
    else
      assert forall x :: x in contents <==> x == contents[0] || x in contents[1..];
      (if Matches(p, contents[0]) then [contents[0]] else []) + Filter(contents[1..], p)
  }

  /** _match_regex: the matching entries, sorted. */
  function MatchRegex(contents: seq<string>, p: Pattern): (r: seq<string>)
    ensures Sorted(r)
    ensures forall x :: x in r <==> x in contents && Matches(p, x)
    ensures multiset(r) == multiset(Filter(contents, p))
  {
    var f := Filter(contents, p);
    assert forall x :: x in Sort(f) <==> x in multiset(Sort(f));
    Sort(f)
  }

  /** CrawlerBase.list: one sorted list per regular expression, under its key. */
  function List(contents: seq<string>, regexs: map<string, Pattern>): (r: map<string, seq<string>>)
    ensures r.Keys == regexs.Keys
    ensures forall k :: k in r ==> Sorted(r[k]) && forall x :: x in r[k] <==> x in contents && Matches(regexs[k], x)
  {
    map k | k in regexs :: MatchRegex(contents, regexs[k])
  }

  const STREAM_REGEXS: map<string, Pattern> := map[HEAD := HeadPattern, STREAMS := StreamsPattern]

  /** A stream product: the capture block and the stream. */
  datatype StreamProduct = StreamProduct(head: string, stream: string)

  /** The pairing StreamCrawler.list makes, stream by stream in order. */
  function Pair(streams: seq<string>, heads: seq<string>): (r: seq<StreamProduct>)
    requires forall i :: 0 <= i < |streams| ==> |streams[i]| >= 10
  {
    if streams == [] then []
    else
      var s := streams[|streams| - 1];
      Pair(streams[..|streams| - 1], heads) + (if s[..10] in heads then [StreamProduct(s[..10], s)] else [])
  }

  /** The products are exactly the streams whose ten-digit head is a listed
      capture block, each with that head (so every stream starts with its
      head). */
  lemma {:induction false} PairMembers(streams: seq<string>, heads: seq<string>, p: StreamProduct)
    requires forall i :: 0 <= i < |streams| ==> |streams[i]| >= 10
    ensures p in Pair(streams, heads) <==> p.stream in streams && |p.stream| >= 10 && p.head == p.stream[..10] && p.head in heads
  {
    if streams != [] {
      var init := streams[..|streams| - 1];
      assert forall i :: 0 <= i < |init| ==> init[i] == streams[i];
      PairMembers(init, heads, p);
      assert forall x :: x in streams <==> x in init || x == streams[|streams| - 1];
    }
  }

  /** The products come in the order of the streams. */
  lemma {:induction false} PairLength(streams: seq<string>, heads: seq<string>)
    requires forall i :: 0 <= i < |streams| ==> |streams[i]| >= 10
    ensures |Pair(streams, heads)| <= |streams|
    ensures (forall i :: 0 <= i < |streams| ==> streams[i][..10] in heads) ==> |Pair(streams, heads)| == |streams|
  {
    if streams != [] {
      var init := streams[..|streams| - 1];
      assert forall i :: 0 <= i < |init| ==> init[i] == streams[i];
      PairLength(init, heads);
    }
  }

  /** The loop of StreamCrawler.list. */
  method PairStreams(streams: seq<string>, heads: seq<string>) returns (products: seq<StreamProduct>)
    requires forall i :: 0 <= i < |streams| ==> |streams[i]| >= 10
    ensures products == Pair(streams, heads)
  {
    products := [];
    var i := 0;
    while i < |streams|
      invariant 0 <= i <= |streams|
      invariant products == Pair(streams[..i], heads)
    {
      assert streams[..i + 1][..i] == streams[..i];
      var stream := streams[i];
      var head := stream[..10];
      if head in heads {
        products := products + [StreamProduct(head, stream)];
      }
      i := i + 1;
    }
    assert streams[..i] == streams;
  }

  /** StreamCrawler.list on a listing: the streams of every listed capture
      block, in sorted order. */
  method StreamList(contents: seq<string>) returns (products: seq<StreamProduct>)
    ensures var streams := MatchRegex(contents, StreamsPattern);
      (forall i :: 0 <= i < |streams| ==> |streams[i]| >= 10) &&
      products == Pair(streams, MatchRegex(contents, HeadPattern))
  {
    var sources := List(contents, STREAM_REGEXS);
    assert sources[STREAMS] == MatchRegex(contents, StreamsPattern);
    assert sources[HEAD] == MatchRegex(contents, HeadPattern);
    var streams := sources[STREAMS];
    forall i | 0 <= i < |streams| ensures |streams[i]| >= 10 {
      assert streams[i] in streams;
    }
    products := PairStreams(streams, sources[HEAD]);
  }

  /** A stream whose capture block is not listed is not a product. */
  lemma UnpairedStream()
    ensures Pair(["1234567890_sdp_l0"], ["1234567891"]) == []
    ensures Pair(["1234567890_sdp_l0"], ["1234567890"]) == [StreamProduct("1234567890", "1234567890_sdp_l0")]
  {
    var s := "1234567890_sdp_l0";
    assert s[..10] == "1234567890";
    assert ["1234567890_sdp_l0"][..0] == [];
  }
}
