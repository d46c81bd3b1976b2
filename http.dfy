/** What the client sends and receives: request bodies, responses, the
    classification of one attempt, the headers composed for it, and the
    errors the client raises. The HTTP transport itself is not modelled:
    an attempt's outcome is given. */
module Http {
  import opened Wrappers

  datatype Verb = GET | POST

  // ------------------------------------------------------------ requests

  datatype Distribution = Distribution(
    feedDistribution: string,
    targetEntities: seq<string>,
    thirdPartyDistributionChannels: seq<string>)

  /** The JSON body of a new post. */
  datatype Payload = Payload(
    author: string,
    commentary: string,
    visibility: string,
    distribution: Distribution,
    lifecycleState: string,
    isReshareDisabledByAuthor: bool)

  /** The query parameters of a feed read. */
  datatype Query = Query(q: string, author: string, count: int, sortBy: string)

  /** The keyword arguments `_request` passes on unchanged to every attempt. */
  datatype Body = NoBody | JsonBody(payload: Payload) | Params(query: Query)

  /** The arguments of one `_request` call; a header mapped to `None` is one
      the caller asks not to send. */
  datatype Call = Call(verb: Verb, url: string, headers: map<string, Option<string>>, body: Body)

  /** One HTTP request actually issued. */
  datatype Probe = Probe(verb: Verb, url: string, headers: map<string, string>, body: Body)

  // ----------------------------------------------------------- responses

  /** The decoded JSON of a response: its top-level string fields and its
      `elements` array, if any. */
  datatype Json = Json(fields: map<string, string>, elements: Option<seq<string>>)

  /** A response; header names are lower-case. */
  datatype Response = Response(status: int, text: string, headers: map<string, string>, json: Json)

  /** What one attempt produced: a transport exception or a response. */
  datatype Outcome = Raised(detail: string) | Answered(response: Response)

  /** `raise_for_status`: 4xx and 5xx statuses raise. */
  predicate IsHttpError(status: int) {
    400 <= status < 600
  }

  // -------------------------------------------------------------- errors

  /** The error an attempt that did not end the loop left in `last_ex`. */
  datatype AttemptError =
    | TransportFailed(detail: string)
    | VersionRefused(status: int, version: string, excerpt: string)

  datatype ClientError =
    | MissingToken                                                  // LinkedInError at construction
    | ExpiredToken                                                  // ExpiredTokenError
    | VersionExhausted(attempted: string, last: Option<AttemptError>)  // LinkedInVersionError
    | HttpError(status: int)                                        // raised by raise_for_status
    | MissingKey(key: string)                                       // KeyError on a response

  // ------------------------------------------------------------- strings

  /** `part` occurs in `s` starting at index `k`. */
  predicate OccursAt(s: string, part: string, k: int) {
    0 <= k <= |s| - |part| && s[k..k + |part|] == part
  }

  /** `part in s` */
  predicate Contains(s: string, part: string) {
    exists k :: 0 <= k <= |s| && OccursAt(s, part, k)
  }

  function LowerChar(c: char): char {
    if 'A' <= c <= 'Z' then (c as int + 32) as char else c
  }

  /** `s.lower()` on ASCII letters. */
  function Lower(s: string): (r: string)
    ensures |r| == |s| && forall i :: 0 <= i < |s| ==> r[i] == LowerChar(s[i])
  {
    seq(|s|, i requires 0 <= i < |s| => LowerChar(s[i]))
  }

  /** Lower-casing keeps every occurrence, lower-cased. */
  lemma LowerContains(s: string, part: string)
    requires Contains(s, part)
    ensures Contains(Lower(s), Lower(part))
  {
    var k :| 0 <= k <= |s| && OccursAt(s, part, k);
    assert k + |part| <= |s| && s[k..k + |part|] == part;
    assert Lower(s)[k..k + |part|] == Lower(part);
    assert OccursAt(Lower(s), Lower(part), k) && k <= |Lower(s)|;
  }

  /** `resp.text[:120]` */
  function Excerpt(text: string): (e: string)
    ensures e <= text
    ensures |e| == if |text| <= 120 then |text| else 120
  {
    if |text| <= 120 then text else text[..120]
  }

  /** `sep.join(xs)` */
  function Join(xs: seq<string>, sep: string): string {
    if |xs| == 0 then ""
    else if |xs| == 1 then xs[0]
    else xs[0] + sep + Join(xs[1..], sep)
  }

  lemma ContainsEnds(a: string, b: string)
    ensures Contains(a + b, a) && Contains(a + b, b)
  {
    assert (a + b)[0..|a|] == a;
    assert (a + b)[|a|..|a| + |b|] == b;
    assert OccursAt(a + b, a, 0);
    assert OccursAt(a + b, b, |a|);
  }

  lemma ContainsInSuffix(a: string, b: string, part: string)
    requires Contains(b, part)
    ensures Contains(a + b, part)
  {
    var k :| 0 <= k <= |b| && OccursAt(b, part, k);
    assert k + |part| <= |b| && b[k..k + |part|] == part;
    assert (a + b)[|a| + k..|a| + k + |part|] == part;
    assert OccursAt(a + b, part, |a| + k);
  }

  /** The joined list names every element. */
  lemma {:induction false} JoinNamesAll(xs: seq<string>, sep: string)
    ensures forall i :: 0 <= i < |xs| ==> Contains(Join(xs, sep), xs[i])
  {
    if |xs| == 1 {
      ContainsEnds(xs[0], "");
      assert xs[0] + "" == xs[0];
    } else if |xs| > 1 {
      JoinNamesAll(xs[1..], sep);
      ContainsEnds(xs[0], sep + Join(xs[1..], sep));
      assert Join(xs, sep) == xs[0] + (sep + Join(xs[1..], sep));
      assert Join(xs, sep) == (xs[0] + sep) + Join(xs[1..], sep);
      forall i | 1 <= i < |xs|
        ensures Contains(Join(xs, sep), xs[i])
      {
        assert xs[i] == xs[1..][i - 1];
        ContainsInSuffix(xs[0] + sep, Join(xs[1..], sep), xs[i]);
      }
    }
  }

  // ------------------------------------------------------ classification

  const ExpiredMarker := "LX401_Expired_Token"

  /** How the fallback loop treats one attempt. */
  datatype Verdict = TransportError | TokenExpired | VersionRejected | Accepted

  function Classify(o: Outcome): Verdict {
    match o
    case Raised(_) => TransportError
    case Answered(r) =>
      if r.status == 401 && Contains(r.text, ExpiredMarker) then TokenExpired
      else if r.status in {400, 404, 426} && Contains(Lower(r.text), "version") then VersionRejected
      else Accepted
  }

  /** Attempts after which the loop moves on to the next candidate. */
  predicate Retry(o: Outcome) {
    Classify(o) == TransportError || Classify(o) == VersionRejected
  }

  /** Every response is accepted unless its status is 400, 401, 404 or 426:
      403, 500 and every 2xx, 3xx or other status end the probing. */
  lemma OtherStatusesAccepted(r: Response)
    requires r.status !in {400, 401, 404, 426}
    ensures Classify(Answered(r)) == Accepted
  {
  }

  /** The version check ignores case: a 400, 404 or 426 whose body mentions
      "version" in any mix of upper and lower case is a version rejection. */
  lemma VersionCheckIgnoresCase(r: Response, p: string)
    requires r.status in {400, 404, 426}
    requires Lower(p) == "version" && Contains(r.text, p)
    ensures Classify(Answered(r)) == VersionRejected
  {
    LowerContains(r.text, p);
  }

  /** For instance, a 426 saying "Unsupported VERSION". */
  lemma UpperCaseVersionRejected(r: Response)
    requires r.status == 426 && Contains(r.text, "VERSION")
    ensures Classify(Answered(r)) == VersionRejected
  {
    assert Lower("VERSION") == "version";
    VersionCheckIgnoresCase(r, "VERSION");
  }

  /** The expired-token marker is matched exactly: a 401 without it is an
      ordinary accepted response. */
  lemma UnmarkedUnauthorizedAccepted(r: Response)
    requires r.status == 401 && !Contains(r.text, ExpiredMarker)
    ensures Classify(Answered(r)) == Accepted
  {
  }

  // ------------------------------------------------------------- headers

  const AuthHeader := "Authorization"
  const VersionHeader := "LinkedIn-Version"
  const ProtocolHeader := "X-Restli-Protocol-Version"
  const ProtocolVersion := "2.0.0"

  /** A header the caller gave a value for. */
  predicate Supplied(caller: map<string, Option<string>>, name: string) {
    name in caller && caller[name].Some?
  }

  /** `dict.setdefault` */
  function SetDefault(h: map<string, string>, name: string, value: string): map<string, string> {
    if name in h then h else h[name := value]
  }

  /** The headers of one attempt: the caller's headers without those mapped to
      `None`, then the bearer token, the candidate version and the protocol
      version for any of the three the caller did not give. */
  function ComposeHeaders(caller: map<string, Option<string>>, token: string, version: string): (h: map<string, string>)
    ensures forall name :: name in h <==>
      Supplied(caller, name) || name == AuthHeader || name == VersionHeader || name == ProtocolHeader
    ensures forall name :: Supplied(caller, name) ==> h[name] == caller[name].value
    ensures !Supplied(caller, AuthHeader) ==> h[AuthHeader] == "Bearer " + token
    ensures !Supplied(caller, VersionHeader) ==> h[VersionHeader] == version
    ensures !Supplied(caller, ProtocolHeader) ==> h[ProtocolHeader] == ProtocolVersion
  {
    var given := map name | name in caller && caller[name].Some? :: caller[name].value;
    SetDefault(SetDefault(SetDefault(given, AuthHeader, "Bearer " + token), VersionHeader, version),
               ProtocolHeader, ProtocolVersion)
  }
}
