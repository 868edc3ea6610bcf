/**
 * Chaincase.Common/Services/ChaincaseClient.cs: the requests the wallet sends to its
 * backend and how each answer is turned into a result or an error.
 *
 * The transport (`TorClient.SendAndRetryAsync`) is the parameter `send`, a function
 * from a request to the response it got; JSON deserialisation and `Transaction.Parse`
 * are parameters that return `None` where the library would throw.
 */
module Client {
  import opened Wrappers
  import Text

  type UShort = x: nat | x < 0x1_0000

  /** `ApiVersion = ushort.Parse(Constants.BackendMajorVersion)`, evaluated once. */
  function ApiVersion(backendMajorVersion: string): (r: Result<UShort, Text.ParseError>)
    ensures r.Success? ==> Text.AllDigits(backendMajorVersion) && backendMajorVersion != []
    ensures backendMajorVersion == [] ==> r == Failure(Text.FormatError)
  {
    match Text.ParseUShort(backendMajorVersion)
    case Success(v) => Success(v)
    case Failure(e) => Failure(e)
  }

  /** A version constant written in plain decimal parses to its value. */
  lemma ApiVersionOfDecimal(v: UShort)
    ensures ApiVersion(Text.DecimalString(v)) == Success(v)
  {
    Text.ParseDecimalString(v);
  }

  datatype HttpMethod = Get | Put

  const StatusOK: nat := 200
  const StatusNoContent: nat := 204

  /** One call of `SendAndRetryAsync`: method, expected status, path, explicit retry count
      (`None` is the transport's default) and JSON body. */
  datatype Request = Request(verb: HttpMethod, expected: nat, path: string, retries: Option<nat>, jsonBody: Option<string>)

  datatype Response = Response(status: nat, body: string)

  datatype ClientError =
    | HttpRequestFailed(status: nat, content: string)   // ThrowRequestExceptionFromContentAsync
    | MalformedJson                                     // ReadAsJsonAsync threw
    | EmptyMapping                                      // Enumerable.First on an empty dictionary
    | MalformedTransaction                              // Transaction.Parse threw

  /** `/api/v{ApiVersion}/` */
  function PathPrefix(v: UShort): string {
    "/api/v" + Text.DecimalString(v) + "/"
  }

  function LatestMatureHeaderRequest(v: UShort): Request {
    Request(Get, StatusOK, PathPrefix(v) + "btc/blockchain/latest-mature-header", None, None)
  }

  function NotificationTokenRequest(v: UShort, deviceTokenJson: string): Request {
    Request(Put, StatusOK, PathPrefix(v) + "notificationTokens", Some(2), Some(deviceTokenJson))
  }

  function MempoolRootRequest(v: UShort): Request {
    Request(Get, StatusOK, PathPrefix(v) + "btc/mempool/root", None, None)
  }

  function MempoolSubRequest(v: UShort): Request {
    Request(Get, StatusOK, PathPrefix(v) + "btc/mempool/sub", None, None)
  }

  /** The separator `string.Join` puts between the requested bucket keys. */
  const KeysSeparator: string := "&keys="

  /** Everything of the bucket path before the first key. */
  function BucketQueryStart(v: UShort): string {
    PathPrefix(v) + "btc/mempool/sub?keys="
  }

  function MempoolBucketsRequest(v: UShort, keys: seq<string>): Request {
    Request(Get, StatusOK, BucketQueryStart(v) + Text.Join(KeysSeparator, keys), None, None)
  }

  /** Every request path starts with the versioned prefix; only the notification-token
      request is a PUT with a body and an explicit retry count of 2. */
  lemma RequestShapes(v: UShort, deviceTokenJson: string, keys: seq<string>)
    ensures var all := [LatestMatureHeaderRequest(v), NotificationTokenRequest(v, deviceTokenJson),
                        MempoolRootRequest(v), MempoolSubRequest(v), MempoolBucketsRequest(v, keys)];
      forall i :: 0 <= i < |all| ==>
        && PathPrefix(v) <= all[i].path
        && all[i].expected == StatusOK
        && (all[i].verb == Put <==> i == 1)
        && (all[i].retries.Some? <==> i == 1)
        && (all[i].jsonBody.Some? <==> i == 1)
    ensures NotificationTokenRequest(v, deviceTokenJson).retries == Some(2)
    ensures NotificationTokenRequest(v, deviceTokenJson).jsonBody == Some(deviceTokenJson)
  {
    assert PathPrefix(v) <= BucketQueryStart(v) + Text.Join(KeysSeparator, keys);
  }

  /** The version segment of every path reads back as the version. */
  lemma {:induction false} PathVersion(v: UShort)
    ensures var p := PathPrefix(v);
      && p[..6] == "/api/v" && p[|p| - 1] == '/'
      && Text.ParseUShort(p[6..|p| - 1]) == Success(v)
  {
    var p := PathPrefix(v);
    assert p[6..|p| - 1] == Text.DecimalString(v);
    Text.ParseDecimalString(v);
  }

  /** The query of the bucket request splits back into the requested keys, in order,
      when no key contains the separator. */
  lemma {:induction false} BucketQueryKeys(v: UShort, keys: seq<string>)
    requires |keys| > 0
    requires forall i :: 0 <= i < |keys| ==> !Text.Occurs(keys[i], KeysSeparator)
    ensures var path := MempoolBucketsRequest(v, keys).path;
      && BucketQueryStart(v) <= path
      && Text.Split(path[|BucketQueryStart(v)|..], KeysSeparator) == keys
  {
    var path := MempoolBucketsRequest(v, keys).path;
    assert path[|BucketQueryStart(v)|..] == Text.Join(KeysSeparator, keys);
    assert Text.FirstCharUnique(KeysSeparator);
    Text.SplitJoin(keys, KeysSeparator);
  }

  /** With no keys the path ends in `?keys=` and nothing follows. */
  lemma NoBucketKeys(v: UShort)
    ensures MempoolBucketsRequest(v, []).path == BucketQueryStart(v)
    ensures "?keys=" == BucketQueryStart(v)[|BucketQueryStart(v)| - 6..]
  {
  }

  /** The common rule of every call: any status but 200 throws with the response content. */
  function RequireOK(resp: Response): (r: Result<string, ClientError>)
    ensures r.Success? <==> resp.status == StatusOK
    ensures r.Success? ==> r.value == resp.body
    ensures r.Failure? ==> r.error == HttpRequestFailed(resp.status, resp.body)
  {
    if resp.status == StatusOK then Success(resp.body) else Failure(HttpRequestFailed(resp.status, resp.body))
  }

  /** `GetLatestMatureHeader`: no content is a null header, OK is the parsed body, anything else throws. */
  function GetLatestMatureHeader<H>(v: UShort, send: Request -> Response, parse: string -> Option<H>): (r: Result<Option<H>, ClientError>)
    ensures var resp := send(LatestMatureHeaderRequest(v));
      && (r == Success(None) <==> resp.status == StatusNoContent)
      && (r.Success? <==> resp.status == StatusNoContent || (resp.status == StatusOK && parse(resp.body).Some?))
      && (resp.status == StatusOK && parse(resp.body).Some? ==> r == Success(Some(parse(resp.body).value)))
      && (resp.status != StatusOK && resp.status != StatusNoContent ==> r == Failure(HttpRequestFailed(resp.status, resp.body)))
  {
    var resp := send(LatestMatureHeaderRequest(v));
    if resp.status == StatusNoContent then Success(None)
    else match RequireOK(resp)
      case Failure(e) => Failure(e)
      case Success(body) =>
        match parse(body)
        case None => Failure(MalformedJson)
        case Some(h) => Success(Some(h))
  }

  /** `RegisterNotificationTokenAsync`: the body of an OK answer, an error otherwise (204 included). */
  function RegisterNotificationToken(v: UShort, deviceTokenJson: string, send: Request -> Response): (r: Result<string, ClientError>)
    ensures var resp := send(NotificationTokenRequest(v, deviceTokenJson));
      && (r.Success? <==> resp.status == StatusOK)
      && (r.Success? ==> r.value == resp.body)
  {
    RequireOK(send(NotificationTokenRequest(v, deviceTokenJson)))
  }

  /** `GetMempoolRootFilter`: the first entry of the returned mapping (in the order the
      deserialiser produced it); an empty mapping throws. */
  function GetMempoolRootFilter(v: UShort, send: Request -> Response, parse: string -> Option<seq<(string, string)>>)
    : (r: Result<(string, string), ClientError>)
    ensures var resp := send(MempoolRootRequest(v));
      && (r.Success? <==> resp.status == StatusOK && parse(resp.body).Some? && |parse(resp.body).value| > 0)
      && (r.Success? ==> r.value == parse(resp.body).value[0])
      && (resp.status == StatusOK && parse(resp.body) == Some([]) ==> r == Failure(EmptyMapping))
  {
    match RequireOK(send(MempoolRootRequest(v)))
    case Failure(e) => Failure(e)
    case Success(body) =>
      match parse(body)
      case None => Failure(MalformedJson)
      case Some(entries) => if |entries| == 0 then Failure(EmptyMapping) else Success(entries[0])
  }

  /** `GetMempoolSubFilters`: the parsed mapping of an OK answer. */
  function GetMempoolSubFilters(v: UShort, send: Request -> Response, parse: string -> Option<map<string, string>>)
    : (r: Result<map<string, string>, ClientError>)
    ensures var resp := send(MempoolSubRequest(v));
      && (r.Success? <==> resp.status == StatusOK && parse(resp.body).Some?)
      && (r.Success? ==> r.value == parse(resp.body).value)
  {
    match RequireOK(send(MempoolSubRequest(v)))
    case Failure(e) => Failure(e)
    case Success(body) =>
      match parse(body)
      case None => Failure(MalformedJson)
      case Some(m) => Success(m)
  }

  /** `s.Value.Select(Transaction.Parse).ToArray()`: every element parsed, in order;
      the first one that does not parse fails the whole array. */
  function ParseAll<T>(texts: seq<string>, parseTx: string -> Option<T>): (r: Option<seq<T>>)
    ensures r.Some? <==> forall i :: 0 <= i < |texts| ==> parseTx(texts[i]).Some?
    ensures r.Some? ==> |r.value| == |texts| && forall i :: 0 <= i < |texts| ==> parseTx(texts[i]) == Some(r.value[i])
  {
    if texts == [] then Some([])
    else
      match parseTx(texts[0])
      case None => None
      case Some(tx) =>
        match ParseAll(texts[1..], parseTx)
        case None => None
        case Some(rest) => Some([tx] + rest)
  }

  /** Every value of the mapping parses as a transaction array. */
  predicate AllBucketsParse<T>(buckets: map<string, seq<string>>, parseTx: string -> Option<T>) {
    forall k :: k in buckets ==> ParseAll(buckets[k], parseTx).Some?
  }

  /** `GetMempoolTransactionBuckets`: the same keys, each array parsed element by element. */
  function GetMempoolTransactionBuckets<T>(v: UShort, keys: seq<string>, send: Request -> Response,
                                            parse: string -> Option<map<string, seq<string>>>,
                                            parseTx: string -> Option<T>)
    : (r: Result<map<string, seq<T>>, ClientError>)
    ensures var resp := send(MempoolBucketsRequest(v, keys));
      && (r.Success? <==> resp.status == StatusOK && parse(resp.body).Some? && AllBucketsParse(parse(resp.body).value, parseTx))
      && (r.Success? ==>
            var buckets := parse(resp.body).value;
            && r.value.Keys == buckets.Keys
            && forall k :: k in buckets ==>
                 && |r.value[k]| == |buckets[k]|
                 && forall i :: 0 <= i < |buckets[k]| ==> parseTx(buckets[k][i]) == Some(r.value[k][i]))
  {
    match RequireOK(send(MempoolBucketsRequest(v, keys)))
    case Failure(e) => Failure(e)
    case Success(body) =>
      match parse(body)
      case None => Failure(MalformedJson)
      case Some(buckets) =>
        if AllBucketsParse(buckets, parseTx) then
          Success(map k | k in buckets :: ParseAll(buckets[k], parseTx).value)
        else Failure(MalformedTransaction)
  }
}
