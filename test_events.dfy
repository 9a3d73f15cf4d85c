/** The builders of sample Lambda events in `AppShared/utils.py`, which local
    runs and tests feed to the handlers: an HTTP API (payload version 2.0)
    request and a one-message SQS batch. */
module TestEvents {
  import opened Options
  import opened PyText
  import opened OrderedDict
  import opened PyValues

  predicate StartsWithSlash(path: string)
  {
    |path| > 0 && path[0] == '/'
  }

  /** The path with a leading '/' added when it lacks one. */
  function NormalizePath(path: string): (p: string)
    ensures StartsWithSlash(p)
    ensures |path| <= |p| <= |path| + 1
    ensures p[|p| - |path|..] == path
    ensures StartsWithSlash(path) ==> p == path
  {
    if StartsWithSlash(path) then path else "/" + path
  }

  /** Normalising a normalised path changes nothing. */
  lemma NormalizePathIdempotent(path: string)
    ensures NormalizePath(NormalizePath(path)) == NormalizePath(path)
  {
  }

  lemma NormalizeAddsSlash(path: string)
    requires !StartsWithSlash(path)
    ensures NormalizePath(path) == "/" + path
    ensures NormalizePath(path)[1..] == path
  {
  }

  /** Two paths normalise alike exactly when they are equal, or when one is
      the other, lacking its slash, with the slash put in front. */
  lemma NormalizePathCollisions(p: string, q: string)
    ensures NormalizePath(p) == NormalizePath(q) <==>
      || p == q
      || (p == "/" + q && !StartsWithSlash(q))
      || (q == "/" + p && !StartsWithSlash(p))
  {
    if StartsWithSlash(p) && StartsWithSlash(q) {
      assert NormalizePath(p) == p && NormalizePath(q) == q;
    } else if StartsWithSlash(p) {
      NormalizeAddsSlash(q);
      assert NormalizePath(p) == p;
      assert q != "/" + p;
    } else if StartsWithSlash(q) {
      NormalizeAddsSlash(p);
      assert NormalizePath(q) == q;
      assert p != "/" + q;
    } else {
      NormalizeAddsSlash(p);
      NormalizeAddsSlash(q);
      assert p != "/" + q && q != "/" + p;
    }
  }

  datatype HttpInfo = HttpInfo(httpMethod: string, path: string)

  datatype RequestContext = RequestContext(http: HttpInfo, stage: string)

  /** The event dict of `create_rest_event`; `body` is absent when None. */
  datatype RestEvent = RestEvent(
    version: string,
    routeKey: string,
    rawPath: string,
    headers: Dict<string>,
    requestContext: RequestContext,
    isBase64Encoded: bool,
    body: Option<string>)

  /** Python truthiness of the optional body: None and `{}` are false. */
  predicate Truthy(body: Option<Dict<Value>>)
  {
    body.Some? && body.value != []
  }

  /** `create_rest_event(method, path, body)`; `dumps` stands for `json.dumps`. */
  method CreateRestEvent(httpMethod: string, path: string, body: Option<Dict<Value>>,
                         dumps: Dict<Value> -> string)
    returns (event: RestEvent)
    ensures StartsWithSlash(event.rawPath) && event.rawPath == NormalizePath(path)
    ensures event.routeKey == httpMethod + " " + event.rawPath
    ensures event.requestContext == RequestContext(HttpInfo(httpMethod, event.rawPath), "$default")
    ensures event.version == "2.0"
    ensures event.headers == [("accept", "application/json")]
    ensures !event.isBase64Encoded
    ensures event.body.Some? <==> Truthy(body)
    ensures event.body.Some? ==> event.body.value == dumps(body.value)
  {
    var p := path;
    if !StartsWithSlash(p) {
      p := "/" + p;
    }
    var routeKey := httpMethod + " " + p;
    event := RestEvent(
      "2.0",
      routeKey,
      p,
      [("accept", "application/json")],
      RequestContext(HttpInfo(httpMethod, p), "$default"),
      false,
      None);
    if body.Some? && body.value != [] {
      event := event.(body := Some(dumps(body.value)));
    }
  }

  /** The route key splits back on its one space into the method and the
      normalised path, as long as neither holds a space. */
  lemma RouteKeySplits(httpMethod: string, path: string)
    requires ' ' !in httpMethod && ' ' !in path
    ensures Split(httpMethod + " " + NormalizePath(path), ' ') == [httpMethod, NormalizePath(path)]
  {
    var p := NormalizePath(path);
    assert ' ' !in p by {
      if !StartsWithSlash(path) {
        assert forall i :: 1 <= i < |p| ==> p[i] == path[i - 1];
      }
    }
    assert httpMethod + " " + p == httpMethod + [' '] + p;
    SplitAround(httpMethod, p, ' ');
    SplitWithoutSeparator(httpMethod, ' ');
    SplitWithoutSeparator(p, ' ');
  }

  const SampleRegion := "us-east-2"
  /** `arn:aws:sqs:us-east-2:123456789012:MyTestQueue` */
  const SampleArnFields := ["arn", "aws", "sqs", SampleRegion, "123456789012", "MyTestQueue"]
  const SampleQueueArn := JoinWith(SampleArnFields, ':')

  /** One record of the SQS batch of `create_sqs_event`. */
  datatype SqsRecord = SqsRecord(
    messageId: string,
    receiptHandle: string,
    body: string,
    attributes: Dict<string>,
    messageAttributes: Dict<string>,
    md5OfBody: string,
    eventSource: string,
    eventSourceArn: string,
    awsRegion: string)

  datatype SqsEvent = SqsEvent(records: seq<SqsRecord>)

  /** `create_sqs_event(body)`: a batch of one message carrying `body`, whose
      other fields are fixed sample values. */
  function CreateSqsEvent(body: string): (e: SqsEvent)
    ensures |e.records| == 1
    ensures e.records[0].body == body
    ensures e.records[0].eventSource == "aws:sqs"
    ensures e.records[0].eventSourceArn == SampleQueueArn
    ensures e.records[0].awsRegion == SampleRegion
  {
    SqsEvent([SqsRecord(
      "3c5fda4e-3f6a-4f1d-9a08-1234567890ab",
      "AQEB1234...example-handle...",
      body,
      [ ("ApproximateReceiveCount", "1"),
        ("SentTimestamp", "1724600000000"),
        ("SenderId", "AIDAEXAMPLEID"),
        ("ApproximateFirstReceiveTimestamp", "1724600005000") ],
      [],
      "7e94b6e91d2008c34e19d0f0a38ce871",
      "aws:sqs",
      SampleQueueArn,
      SampleRegion)])
  }

  /** Two sample events differ in their body and in nothing else. */
  lemma SqsEventsDifferOnlyInBody(a: string, b: string)
    ensures CreateSqsEvent(a).records[0].(body := b) == CreateSqsEvent(b).records[0]
    ensures a != b ==> CreateSqsEvent(a) != CreateSqsEvent(b)
  {
    if a != b {
      assert CreateSqsEvent(a).records[0].body != CreateSqsEvent(b).records[0].body;
    }
  }

  /** The sample queue lives in the region the record names: the fourth field
      of the ARN is `awsRegion`. */
  lemma SqsArnMatchesRegion(body: string)
    ensures var r := CreateSqsEvent(body).records[0];
      |Split(r.eventSourceArn, ':')| == 6 && Split(r.eventSourceArn, ':')[3] == r.awsRegion
  {
    assert forall k :: 0 <= k < |SampleArnFields| ==> ':' !in SampleArnFields[k];
    SplitJoinWith(SampleArnFields, ':');
  }
}
