/** The LinkedIn client: a session that builds its candidate versions at
    construction, resolves the member's profile, and publishes and reads
    posts through the version-negotiating request executor. */
module LinkedIn {
  import opened Wrappers
  import opened Tokens
  import opened VersionCandidates
  import opened Http
  import opened Negotiation

  const PostsEndpoint := "https://api.linkedin.com/rest/posts"
  const UserinfoEndpoint := "https://api.linkedin.com/v2/userinfo"
  const DefaultVisibility := "PUBLIC"
  const DryRunResult := "dry_run"
  const PostIdHeader := "x-restli-id"

  /** The process-wide cache of the last version a request succeeded with,
      shared by every client. */
  class VersionCache {
    var value: Option<string>

    constructor ()
      ensures value == None
    {
      value := None;
    }
  }

  /** The member a client acts for. */
  datatype Profile = Profile(personId: string, firstName: string, lastName: string)

  /** `profile["sub"]`, `profile.get("given_name", "")`, `profile.get("family_name", "")` */
  function ProfileOf(json: Json): Result<Profile, ClientError> {
    if "sub" !in json.fields then Failure(MissingKey("sub"))
    else
      var first := if "given_name" in json.fields then json.fields["given_name"] else "";
      var last := if "family_name" in json.fields then json.fields["family_name"] else "";
      Success(Profile(json.fields["sub"], first, last))
  }

  /** `_fetch_profile` after its request: `raise_for_status`, then the profile. */
  function ProfileResult(negotiated: Result<Response, ClientError>): (r: Result<Profile, ClientError>)
    ensures negotiated.Failure? ==> r == Failure(negotiated.error)
    ensures negotiated.Success? && IsHttpError(negotiated.value.status) ==>
      r == Failure(HttpError(negotiated.value.status))
    ensures r.Success? ==>
      && negotiated.Success? && !IsHttpError(negotiated.value.status)
      && "sub" in negotiated.value.json.fields
      && r.value.personId == negotiated.value.json.fields["sub"]
    ensures negotiated.Success? && !IsHttpError(negotiated.value.status) ==>
      (r.Success? <==> "sub" in negotiated.value.json.fields)
    ensures r.Success? ==>
      var fields := negotiated.value.json.fields;
      && r.value.firstName == (if "given_name" in fields then fields["given_name"] else "")
      && r.value.lastName == (if "family_name" in fields then fields["family_name"] else "")
  {
    match negotiated
    case Failure(e) => Failure(e)
    case Success(resp) => if IsHttpError(resp.status) then Failure(HttpError(resp.status)) else ProfileOf(resp.json)
  }

  function AuthorUrn(personId: string): string {
    "urn:li:person:" + personId
  }

  /** The body of a new post. */
  function PostPayload(author: string, text: string, visibility: Option<string>): (p: Payload)
    ensures p.author == author && p.commentary == text
    ensures p.visibility != ""
    ensures Truthy(visibility) ==> p.visibility == visibility.value
    ensures !Truthy(visibility) ==> p.visibility == DefaultVisibility
    ensures p.distribution == Distribution("MAIN_FEED", [], [])
    ensures p.lifecycleState == "PUBLISHED" && !p.isReshareDisabledByAuthor
  {
    Payload(author, text, if Truthy(visibility) then visibility.value else DefaultVisibility,
            Distribution("MAIN_FEED", [], []), "PUBLISHED", false)
  }

  /** `post` after its request: `raise_for_status`, then the new post's id from
      the `x-restli-id` response header. */
  function PostResult(negotiated: Result<Response, ClientError>): (r: Result<string, ClientError>)
    ensures negotiated.Failure? ==> r == Failure(negotiated.error)
    ensures r.Success? <==>
      && negotiated.Success? && !IsHttpError(negotiated.value.status)
      && PostIdHeader in negotiated.value.headers
    ensures r.Success? ==> r.value == negotiated.value.headers[PostIdHeader]
  {
    match negotiated
    case Failure(e) => Failure(e)
    case Success(resp) =>
      if IsHttpError(resp.status) then Failure(HttpError(resp.status))
      else if PostIdHeader !in resp.headers then Failure(MissingKey(PostIdHeader))
      else Success(resp.headers[PostIdHeader])
  }

  /** The feed query of `try_read_latest`. */
  function FeedQuery(authorUrn: string, count: int): Query {
    Query("author", authorUrn, count, "LAST_MODIFIED")
  }

  /** `try_read_latest` after its request: a 403 reads as "no posts visible",
      other errors raise, and a success gives the `elements` list. */
  function ReadResult(negotiated: Result<Response, ClientError>): (r: Result<Option<seq<string>>, ClientError>)
    ensures negotiated.Failure? ==> r == Failure(negotiated.error)
    ensures negotiated.Success? && negotiated.value.status == 403 ==> r == Success(None)
    ensures r == Success(None) ==> negotiated.Success? && negotiated.value.status == 403
    ensures r.Success? && r.value.Some? ==>
      negotiated.Success? && !IsHttpError(negotiated.value.status)
      && r.value.value == (if negotiated.value.json.elements.Some? then negotiated.value.json.elements.value else [])
    ensures negotiated.Success? && negotiated.value.status != 403 && !IsHttpError(negotiated.value.status) ==>
      r == Success(Some(if negotiated.value.json.elements.Some? then negotiated.value.json.elements.value else []))
    ensures negotiated.Success? && negotiated.value.status != 403 && IsHttpError(negotiated.value.status) ==>
      r == Failure(HttpError(negotiated.value.status))
  {
    match negotiated
    case Failure(e) => Failure(e)
    case Success(resp) =>
      if resp.status == 403 then Success(None)
      else if IsHttpError(resp.status) then Failure(HttpError(resp.status))
      else Success(Some(if resp.json.elements.Some? then resp.json.elements.value else []))
  }

  /** A 403 on the feed read, after candidates that all moved on, returns
      `None` rather than raising, and still pins its candidate. */
  lemma ReadForbiddenIsNone(versions: seq<string>, outcomes: seq<Outcome>, k: nat, before: Option<string>)
    requires k < |versions| <= |outcomes|
    requires forall j :: 0 <= j < k ==> Retry(outcomes[j])
    requires outcomes[k].Answered? && outcomes[k].response.status == 403
    ensures ReadResult(Negotiate(versions, outcomes)) == Success(None)
    ensures PinnedAfter(versions, outcomes, before) == Some(versions[k])
  {
    OtherStatusesAccepted(outcomes[k].response);
    FirstAcceptedWins(versions, outcomes, k, before);
  }

  /** The version a request pinned becomes the first candidate of every
      client constructed afterwards, whatever its lock and start month. */
  lemma PinnedVersionLeadsNextClient(versions: seq<string>, outcomes: seq<Outcome>,
                                     lock: Option<string>, first: string, v: string)
    requires |versions| <= |outcomes|
    requires PinnedAfter(versions, outcomes, None) == Some(v) && v != ""
    requires Truthy(lock) || StartOk(first)
    ensures Candidates(lock, first, Some(v))[0] == v
  {
    CandidatesCached(lock, first, Some(v));
  }

  class Client {
    const token: string
    const cache: VersionCache
    var versions: seq<string>
    var version: Option<string>
    var personId: string
    var authorUrn: string
    var firstName: string
    var lastName: string

    /** The first part of `__init__`: the candidate list from the version
        lock, the start month `first` and the shared cache. */
    constructor (token: string, lock: Option<string>, first: string, cache: VersionCache)
      requires Truthy(lock) || StartOk(first)
      ensures this.token == token && this.cache == cache
      ensures versions == Candidates(lock, first, cache.value)
      ensures version == None
    {
      this.token := token;
      this.cache := cache;
      var probes: seq<string>;
      if Truthy(lock) {
        probes := [lock.value];
      } else {
        probes := Lookback(Parse(first).value);
      }
      if Truthy(cache.value) {
        probes := [cache.value.value] + probes;
        probes := Dedup(probes);
      }
      versions := probes;
      version := None;
      personId, authorUrn, firstName, lastName := "", "", "", "";
    }

    /** `_request`: try the candidates in order until one is accepted, the
        token turns out expired, or all are exhausted. `outcomes[j]` is what
        the transport makes of the request sent for candidate `j`; `sent` is
        the requests actually sent. */
    method Request(call: Call, outcomes: seq<Outcome>) returns (result: Result<Response, ClientError>, sent: seq<Probe>)
      requires |versions| <= |outcomes|
      modifies this`version, cache`value
      ensures result == Negotiate(versions, outcomes)
      ensures sent == Probes(call, token, versions, Attempts(versions, outcomes))
      ensures version == PinnedAfter(versions, outcomes, old(version))
      ensures cache.value == PinnedAfter(versions, outcomes, old(cache.value))
    {
      var lastEx: Option<AttemptError> := None;
      var pending := call.headers;
      sent := [];
      for i := 0 to |versions|
        invariant forall j :: 0 <= j < i ==> Retry(outcomes[j])
        invariant lastEx == LastError(versions, outcomes, i)
        invariant pending == if i == 0 then call.headers else map[]
        invariant sent == Probes(call, token, versions, i)
        invariant version == old(version) && cache.value == old(cache.value)
      {
        var ver := versions[i];
        var hdrs := ComposeHeaders(pending, token, ver);
        pending := map[];
        sent := sent + [Probe(call.verb, call.url, hdrs, call.body)];
        assert sent == Probes(call, token, versions, i + 1);
        match outcomes[i] {
          case Raised(detail) =>
            lastEx := Some(TransportFailed(detail));
            continue;
          case Answered(resp) =>
            if resp.status == 401 && Contains(resp.text, ExpiredMarker) {
              assert Classify(outcomes[i]) == TokenExpired;
              ExpiredTokenStops(versions, outcomes, i, old(version));
              ExpiredTokenStops(versions, outcomes, i, old(cache.value));
              result := Failure(ExpiredToken);
              return;
            }
            if resp.status in {400, 404, 426} && Contains(Lower(resp.text), "version") {
              lastEx := Some(VersionRefused(resp.status, ver, Excerpt(resp.text)));
              continue;
            }
            assert Classify(outcomes[i]) == Accepted;
            FirstAcceptedWins(versions, outcomes, i, old(version));
            FirstAcceptedWins(versions, outcomes, i, old(cache.value));
            version := Some(ver);
            cache.value := Some(ver);
            result := Success(resp);
            return;
        }
      }
      StopAt(versions, outcomes, |versions|);
      result := Failure(VersionExhausted(Join(versions, ", "), lastEx));
    }

    /** `post`: a dry run sends nothing and returns "dry_run"; otherwise the
        payload is POSTed and the new post's id returned. */
    method Post(text: string, visibility: Option<string>, dryRun: bool, outcomes: seq<Outcome>)
      returns (result: Result<string, ClientError>, sent: seq<Probe>)
      requires |versions| <= |outcomes|
      modifies this`version, cache`value
      ensures dryRun ==>
        && result == Success(DryRunResult) && sent == []
        && version == old(version) && cache.value == old(cache.value)
      ensures !dryRun ==>
        var call := Call(POST, PostsEndpoint, map[], JsonBody(PostPayload(authorUrn, text, visibility)));
        && result == PostResult(Negotiate(versions, outcomes))
        && sent == Probes(call, token, versions, Attempts(versions, outcomes))
        && version == PinnedAfter(versions, outcomes, old(version))
        && cache.value == PinnedAfter(versions, outcomes, old(cache.value))
    {
      var payload := PostPayload(authorUrn, text, visibility);
      if dryRun {
        return Success(DryRunResult), [];
      }
      var r;
      r, sent := Request(Call(POST, PostsEndpoint, map[], JsonBody(payload)), outcomes);
      result := PostResult(r);
    }

    /** `try_read_latest`: read the member's latest posts, with the
        Content-Type header suppressed; a 403 gives `None`. */
    method TryReadLatest(count: int, outcomes: seq<Outcome>)
      returns (result: Result<Option<seq<string>>, ClientError>, sent: seq<Probe>)
      requires |versions| <= |outcomes|
      modifies this`version, cache`value
      ensures var call := Call(GET, PostsEndpoint, map["Content-Type" := None], Params(FeedQuery(authorUrn, count)));
        && result == ReadResult(Negotiate(versions, outcomes))
        && sent == Probes(call, token, versions, Attempts(versions, outcomes))
        && version == PinnedAfter(versions, outcomes, old(version))
        && cache.value == PinnedAfter(versions, outcomes, old(cache.value))
    {
      var r;
      r, sent := Request(Call(GET, PostsEndpoint, map["Content-Type" := None], Params(FeedQuery(authorUrn, count))),
                         outcomes);
      result := ReadResult(r);
    }

    /** The profile discovery at the end of `__init__`. */
    method FetchProfile(outcomes: seq<Outcome>) returns (result: Result<Profile, ClientError>, sent: seq<Probe>)
      requires |versions| <= |outcomes|
      modifies this`version, this`personId, this`authorUrn, this`firstName, this`lastName, cache`value
      ensures result == ProfileResult(Negotiate(versions, outcomes))
      ensures sent == Probes(Call(GET, UserinfoEndpoint, map[], NoBody), token, versions, Attempts(versions, outcomes))
      ensures version == PinnedAfter(versions, outcomes, old(version))
      ensures cache.value == PinnedAfter(versions, outcomes, old(cache.value))
      ensures result.Success? ==>
        && personId == result.value.personId && authorUrn == AuthorUrn(personId)
        && firstName == result.value.firstName && lastName == result.value.lastName
    {
      var r;
      r, sent := Request(Call(GET, UserinfoEndpoint, map[], NoBody), outcomes);
      result := ProfileResult(r);
      if result.Success? {
        personId := result.value.personId;
        authorUrn := AuthorUrn(personId);
        firstName := result.value.firstName;
        lastName := result.value.lastName;
      }
    }
  }

  /** The token the client uses: `access_token or os.getenv("LINKEDIN_ACCESS_TOKEN", "")`. */
  function TokenOf(accessToken: Option<string>, envToken: Option<string>): string {
    if Truthy(accessToken) then accessToken.value else if envToken.Some? then envToken.value else ""
  }

  /** The start month `start_version or now.strftime("%Y%m")`. */
  function StartOf(startVersion: Option<string>, now: YearMonth): string
    requires HasToken(now)
  {
    if Truthy(startVersion) then startVersion.value else Format(now)
  }

  /** `LinkedInClient(...)`: refuse a missing token, build the candidate
      list, and resolve the profile with one request. */
  method NewClient(accessToken: Option<string>, envToken: Option<string>, lock: Option<string>,
                   startVersion: Option<string>, now: YearMonth, cache: VersionCache, outcomes: seq<Outcome>)
    returns (result: Result<Client, ClientError>, sent: seq<Probe>)
    requires HasToken(now)
    requires TokenOf(accessToken, envToken) != "" ==> Truthy(lock) || StartOk(StartOf(startVersion, now))
    requires MaxLookback + 2 <= |outcomes|
    modifies cache
    ensures TokenOf(accessToken, envToken) == "" ==>
      result == Failure(MissingToken) && sent == [] && cache.value == old(cache.value)
    ensures TokenOf(accessToken, envToken) != "" ==>
      var versions := Candidates(lock, StartOf(startVersion, now), old(cache.value));
      var token := TokenOf(accessToken, envToken);
      && |versions| <= |outcomes|
      && sent == Probes(Call(GET, UserinfoEndpoint, map[], NoBody), token, versions, Attempts(versions, outcomes))
      && cache.value == PinnedAfter(versions, outcomes, old(cache.value))
      && (result.Success? <==> ProfileResult(Negotiate(versions, outcomes)).Success?)
      && (result.Failure? ==> result.error == ProfileResult(Negotiate(versions, outcomes)).error)
      && (result.Success? ==>
            var c := result.value;
            && c.token == token && c.cache == cache && c.versions == versions
            && c.version == PinnedAfter(versions, outcomes, None)
            && c.personId == ProfileResult(Negotiate(versions, outcomes)).value.personId
            && c.authorUrn == AuthorUrn(c.personId))
  {
    var token := TokenOf(accessToken, envToken);
    if token == "" {
      return Failure(MissingToken), [];
    }
    var c := new Client(token, lock, StartOf(startVersion, now), cache);
    CandidatesSize(lock, StartOf(startVersion, now), cache.value);
    var profile;
    profile, sent := c.FetchProfile(outcomes);
    if profile.Failure? {
      return Failure(profile.error), sent;
    }
    result := Success(c);
  }
}
