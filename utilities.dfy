// S3 helpers shared by the uploaders: the keyword arguments for a boto
// connection, the redacted form of an access key used in log messages, and
// the bucket policy that grants anonymous read access and listing.

module Utilities {
  import opened Strs

  /** The parsed command-line arguments that name the S3 endpoint. */
  datatype S3Args = S3Args(s3Host: string, s3Port: int)

  /** boto.s3.connection.OrdinaryCallingFormat: path-style bucket URLs. */
  datatype CallingFormat = OrdinaryCallingFormat

  /** The keyword arguments of boto.connect_s3. */
  datatype BotoDict = BotoDict(host: string, port: int, isSecure: bool, callingFormat: CallingFormat)

  /** make_boto_dict: the endpoint is taken from the arguments, and the
      connection is always plain (not TLS) with path-style addressing. */
  function MakeBotoDict(args: S3Args): (r: BotoDict)
    ensures r.host == args.s3Host && r.port == args.s3Port
    ensures !r.isSecure && r.callingFormat == OrdinaryCallingFormat
  {
    BotoDict(args.s3Host, args.s3Port, false, OrdinaryCallingFormat)
  }

  /** The twelve '#' that stand for the hidden part of a key. */
  const MASK := "############"

  function Min(a: nat, b: nat): nat { if a <= b then a else b }

  /** s[:3] in Python: the first three characters, or all of a shorter string. */
  function Head3(s: string): (r: string)
    ensures |r| == Min(3, |s|) && r == s[..|r|]
  {
    s[..Min(3, |s|)]
  }

  /** s[-3:] in Python: the last three characters, or all of a shorter string. */
  function Tail3(s: string): (r: string)
    ensures |r| == Min(3, |s|) && r == s[|s| - |r|..]
  {
    s[|s| - Min(3, |s|)..]
  }

  /** redact_key */
  function RedactKey(key: string): (r: string)
    ensures |r| == 2 * Min(3, |key|) + |MASK|
    ensures StartsWith(r, Head3(key)) && EndsWith(r, Tail3(key))
    ensures r[Min(3, |key|)..|r| - Min(3, |key|)] == MASK
  {
    var r := Head3(key) + MASK + Tail3(key);
    assert r[..|Head3(key)|] == Head3(key);
    assert r[|Head3(key)|..|r| - |Tail3(key)|] == MASK;
    assert r[|r| - |Tail3(key)|..] == Tail3(key);
    r
  }

  /** A key of six or more characters shows its first and last three
      characters, with exactly the mask between them. */
  lemma RedactShowsEnds(key: string)
    requires |key| >= 6
    ensures var r := RedactKey(key);
      |r| == 18 && r[..3] == key[..3] && r[3..15] == MASK && r[15..] == key[|key| - 3..]
  {
    var r := RedactKey(key);
    assert r == key[..3] + MASK + key[|key| - 3..];
    assert r[3..15] == (key[..3] + MASK + key[|key| - 3..])[3..15];
  }

  /** A key of three characters or fewer is shown whole, twice: the Python
      slices do not fail on short strings, they clamp. */
  lemma RedactShortKey(key: string)
    requires |key| <= 3
    ensures RedactKey(key) == key + MASK + key
  {
    assert key[..|key|] == key;
    assert key[0..] == key;
  }

  /** Nothing of a key but its first and last three characters reaches the log:
      two keys that agree there redact alike. */
  lemma RedactHidesMiddle(a: string, b: string)
    requires Head3(a) == Head3(b) && Tail3(a) == Tail3(b)
    ensures RedactKey(a) == RedactKey(b)
  {
  }

  /** One statement of an S3 bucket policy. */
  datatype Statement = Statement(sid: string, effect: string, principal: string,
                                 action: seq<string>, resource: seq<string>)

  datatype Policy = Policy(version: string, statement: seq<Statement>)

  const POLICY_VERSION := "2012-10-17"
  const GET_OBJECT := "s3:GetObject"
  const LIST_BUCKET := "s3:ListBucket"

  /** The ARN of a bucket. */
  function BucketArn(bucket: string): string
  {
    "arn:aws:s3:::" + bucket
  }

  function AnonStatement(action: string, resource: string): (r: Statement)
    ensures r.effect == "Allow" && r.principal == "*" && r.action == [action] && r.resource == [resource]
  {
    Statement("AddPerm", "Allow", "*", [action], [resource])
  }

  /** s3_create_anon_access_policy, as the document that json.dumps writes
      out: object reads under the bucket, and listing of the bucket. */
  function AnonAccessPolicy(bucket: string): (r: Policy)
    ensures r.version == POLICY_VERSION && |r.statement| == 2
    ensures forall s <- r.statement :: s.sid == "AddPerm" && s.effect == "Allow" && s.principal == "*"
    ensures r.statement[0].action == [GET_OBJECT] && r.statement[0].resource == [BucketArn(bucket) + "/*"]
    ensures r.statement[1].action == [LIST_BUCKET] && r.statement[1].resource == [BucketArn(bucket)]
  {
    Policy(POLICY_VERSION, [AnonStatement(GET_OBJECT, BucketArn(bucket) + "/*"),
                            AnonStatement(LIST_BUCKET, BucketArn(bucket))])
  }

  /** A policy resource with a trailing '*' covers every ARN it is a prefix
      of; any other resource covers only itself. */
  predicate Covers(pattern: string, arn: string)
  {
    if |pattern| > 0 && pattern[|pattern| - 1] == '*' then StartsWith(arn, pattern[..|pattern| - 1])
    else arn == pattern
  }

  /** Whether a policy lets an anonymous caller do `action` on `arn`. */
  predicate AllowsAnonymous(p: Policy, action: string, arn: string)
  {
    exists s <- p.statement :: s.effect == "Allow" && s.principal == "*" && action in s.action &&
      exists pat <- s.resource :: Covers(pat, arn)
  }

  /** The anonymous policy grants exactly two things: reading any object of
      the bucket, and listing the bucket itself (for a bucket name without
      '*', as S3 bucket names are). */
  lemma AnonAccessGrants(bucket: string, action: string, arn: string)
    requires '*' !in bucket
    ensures AllowsAnonymous(AnonAccessPolicy(bucket), action, arn) <==>
      (action == GET_OBJECT && StartsWith(arn, BucketArn(bucket) + "/")) ||
      (action == LIST_BUCKET && arn == BucketArn(bucket))
  {
    var p := AnonAccessPolicy(bucket);
    var objects := BucketArn(bucket) + "/*";
    assert objects[|objects| - 1] == '*';
    assert objects[..|objects| - 1] == BucketArn(bucket) + "/";
    var b := BucketArn(bucket);
    assert b[|b| - 1] != '*' by {
      if bucket != [] { assert b[|b| - 1] == bucket[|bucket| - 1]; }
    }
    assert Covers(objects, arn) <==> StartsWith(arn, BucketArn(bucket) + "/");
    assert Covers(b, arn) <==> arn == b;
    assert GET_OBJECT != LIST_BUCKET;
    if action == GET_OBJECT && StartsWith(arn, BucketArn(bucket) + "/") {
      assert p.statement[0] in p.statement && objects in p.statement[0].resource;
    }
    if action == LIST_BUCKET && arn == b {
      assert p.statement[1] in p.statement && b in p.statement[1].resource;
    }
  }
}
