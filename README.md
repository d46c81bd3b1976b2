# LinkedIn version-negotiating client — Dafny model

This project models the request core of `LinkedInClient` in
`linkedin-agent/linkedin_helper.py`. The client publishes and reads posts on
LinkedIn's versioned REST API. Every request carries a `LinkedIn-Version`
header, a `YYYYMM` token, and LinkedIn retires versions on a rolling basis,
so the client probes several candidate versions and remembers the one that
worked.

Modules, leaves first:

- `Wrappers` — `Option`, `Result`, and Python truthiness of an optional string.
- `Tokens` — calendar months, `YYYYMM` tokens (`strftime`/`strptime` with
  `%Y%m`), and calendar month subtraction as arithmetic on `year*12 + (month-1)`.
- `VersionCandidates` — the lookback list (start month minus 0..3 months),
  `list(dict.fromkeys(...))` de-duplication, and the candidate list built
  from the version lock, the start month and the process-wide cache.
- `Http` — request bodies, responses, the classification of one attempt
  (transport error, expired token, version rejection, accepted), header
  composition with `setdefault`, and the client's errors as a datatype.
- `Negotiation` — the fallback loop of `_request` as functions: where it
  stops, what it returns or raises, which version it pins, which requests it
  sends. The lemmas here state the loop's three exits.
- `LinkedIn` — the shared `VersionCache` object (the module global
  `_VERSION_CACHE`), and the `Client` class. Its constructor builds the
  candidate list. `Request` is the loop itself, proved against the
  `Negotiation` functions. `Post`, `TryReadLatest` and `FetchProfile` go
  through `Request`, and `NewClient` is the whole `LinkedInClient(...)`
  construction.

The transport is a parameter. `outcomes[j]` is what the j-th attempt of a
call produced: `Raised(detail)` for a `requests.RequestException`, or
`Answered(response)`. Each method also returns `sent`, the list of requests
it actually issued, so "no request" and "no later candidate tried" can be
stated as facts about `sent`.

Behaviour of the code a reader might not expect (the model keeps it):

- An env lock does not always give a one-element list. A cached version is
  still put in front, so the list is `[cache, lock]` unless the two are equal.
- Any status other than an expired-token 401 or a version-mentioning
  400/404/426 ends the probing and pins the version. That includes 403 and
  500, not only 2xx. So a 403 from `try_read_latest` pins its candidate,
  and so does a 500 from the profile request, even though construction then
  fails.
- The pinned `self.version` is never used to reorder probing within a
  session. Every call probes `versions` from the start. The cache reorders
  only clients constructed later.
- `kwargs.pop("headers", {})` leaves nothing for later iterations. Caller
  headers therefore reach only the first attempt, and later attempts carry
  only the three default headers. The body and query are sent on every
  attempt.
- `strptime("%Y%m")` also accepts a one-digit month (`"20251"`). The first
  candidate is then `"202501"`, not the start string.

## Model

| member | source | states |
|---|---|---|
| Tokens.SubMonths | linkedin-agent/linkedin_helper.py:63 | subtracting `i` calendar months gives a month in 1..12 whose index is `i` lower |
| Tokens.Format | linkedin-agent/linkedin_helper.py:63 | `strftime("%Y%m")`: six ASCII digits; its inverse is stated by Tokens.ParseFormat and Tokens.FormatParse, its order by Tokens.FormatOrder |
| Tokens.SubOneMonth | linkedin-agent/linkedin_helper.py:63 | one month back keeps the year, except that January rolls back to December of the previous year |
| Tokens.SubMonthsCompose | linkedin-agent/linkedin_helper.py:62-65 | subtracting `i` then `j` months equals subtracting `i + j` |
| Tokens.SubMonthsAcrossNewYear | linkedin-agent/linkedin_helper.py:63 | 202501 minus two months is 202411 |
| Tokens.Padded | linkedin-agent/linkedin_helper.py:63 | zero-padded rendering has exactly `width` ASCII digits and denotes `n` |
| Tokens.PaddedDecimal | linkedin-agent/linkedin_helper.py:61 | re-rendering a digit string's value at its own width gives the string back |
| Tokens.Parse | linkedin-agent/linkedin_helper.py:61 | a parsed token is a month of year 1..9999 with month 1..12 |
| Tokens.ParseFormat | linkedin-agent/linkedin_helper.py:60-61 | parsing a formatted month gives the month back |
| Tokens.FormatParse | linkedin-agent/linkedin_helper.py:60-61 | a six-character token that parses is the formatting of its month |
| Tokens.FormatOrder | linkedin-agent/linkedin_helper.py:62-65 | tokens compare as numbers exactly as their months compare in time |
| Tokens.ParseOneDigitMonth | linkedin-agent/linkedin_helper.py:61 | `strptime` reads "20251" as January 2025 |
| Tokens.FormatJanuary2025 | linkedin-agent/linkedin_helper.py:63 | January 2025 is written "202501" |
| VersionCandidates.LookbackMonths | linkedin-agent/linkedin_helper.py:62-65 | the lookback has 4 tokens; token `i` parses to the start month minus `i` months, and each is one month before the previous |
| VersionCandidates.Lookback | linkedin-agent/linkedin_helper.py:62-65 | the lookback comprehension; its contents are stated by VersionCandidates.LookbackMonths and its order by VersionCandidates.LookbackDescending |
| VersionCandidates.LookbackDescending | linkedin-agent/linkedin_helper.py:62-65 | lookback tokens strictly decrease in time and as numbers, so they are distinct |
| VersionCandidates.DedupAfter | linkedin-agent/linkedin_helper.py:70 | the result has no duplicates and holds exactly the input's elements not already seen |
| VersionCandidates.Dedup | linkedin-agent/linkedin_helper.py:70 | `list(dict.fromkeys(s))`; stated by VersionCandidates.DedupAfter, VersionCandidates.DedupIsFirstOccurrences and VersionCandidates.DedupCons |
| VersionCandidates.DedupIsFirstOccurrences | linkedin-agent/linkedin_helper.py:70 | de-duplication equals the reference "keep element `i` iff it is not in the prefix before `i`" |
| VersionCandidates.DedupCons | linkedin-agent/linkedin_helper.py:69-70 | prepending `c` to a duplicate-free list and de-duplicating gives `c` followed by the list without `c`, order kept |
| VersionCandidates.CandidatesLookback | linkedin-agent/linkedin_helper.py:56-65 | with no lock and no cache: 4 distinct, strictly decreasing tokens, token `i` being the start minus `i` months, the first being a six-character start itself |
| VersionCandidates.Candidates | linkedin-agent/linkedin_helper.py:56-70 | the candidate list from lock, start and cache; stated by VersionCandidates.CandidatesLookback, CandidatesLocked, CandidatesCached and CandidatesSize |
| VersionCandidates.OneDigitMonthStart | linkedin-agent/linkedin_helper.py:60-65 | a start "20251" is accepted and the first candidate is then "202501" |
| VersionCandidates.CandidatesLocked | linkedin-agent/linkedin_helper.py:56-70 | a lock with no cache or an equal cache gives `[lock]`; a different cache gives `[cache, lock]` |
| VersionCandidates.CandidatesCached | linkedin-agent/linkedin_helper.py:67-70 | a cache is the first candidate; the list is duplicate-free, holds the cache and the probes, and keeps the probes' order with the first occurrence winning |
| VersionCandidates.CandidatesSize | linkedin-agent/linkedin_helper.py:56-70 | every candidate list has between 1 and 5 tokens |
| Http.LowerContains | linkedin-agent/linkedin_helper.py:165 | lower-casing keeps every occurrence of a substring, lower-cased |
| Http.Lower | linkedin-agent/linkedin_helper.py:165 | `str.lower()` on ASCII: same length, each character lower-cased; Http.LowerContains states that occurrences survive it |
| Http.Classify | linkedin-agent/linkedin_helper.py:159-170 | the verdict on one attempt; stated by Http.OtherStatusesAccepted, Http.VersionCheckIgnoresCase, Http.UnmarkedUnauthorizedAccepted and the Negotiation lemmas |
| Http.VersionCheckIgnoresCase | linkedin-agent/linkedin_helper.py:164-165 | a 400, 404 or 426 whose body contains any spelling `p` with `Lower(p) == "version"` is a version rejection |
| Http.UpperCaseVersionRejected | linkedin-agent/linkedin_helper.py:164-165 | a 426 saying "VERSION" is a version rejection |
| Http.OtherStatusesAccepted | linkedin-agent/linkedin_helper.py:159-175 | any status other than 400, 401, 404 and 426 (403, 500, 2xx included) is accepted |
| Http.UnmarkedUnauthorizedAccepted | linkedin-agent/linkedin_helper.py:159-161 | a 401 without the `LX401_Expired_Token` marker is an ordinary accepted response |
| Http.Excerpt | linkedin-agent/linkedin_helper.py:168 | the error excerpt is the prefix of the body of length min(120, body length) |
| Http.JoinNamesAll | linkedin-agent/linkedin_helper.py:177 | the `", "`-joined attempt list contains every candidate |
| Http.Join | linkedin-agent/linkedin_helper.py:177 | `", ".join(...)`; Http.JoinNamesAll states that it names every element |
| Http.ComposeHeaders | linkedin-agent/linkedin_helper.py:136-140 | the headers sent are the caller's non-`None` headers plus Authorization, LinkedIn-Version and the protocol header, each default used only when the caller gave none |
| Http.SetDefault | linkedin-agent/linkedin_helper.py:138-140 | `dict.setdefault`; its effect is stated by Http.ComposeHeaders |
| Negotiation.StopFrom | linkedin-agent/linkedin_helper.py:134-175 | the loop stops at the first attempt that is not a transport error or version rejection, or after the last |
| Negotiation.Negotiate | linkedin-agent/linkedin_helper.py:131-180 | what a `_request` call returns or raises; stated by Negotiation.ExpiredTokenStops, FirstAcceptedWins, AllCandidatesFail and NegotiateOutcomes |
| Negotiation.PinnedAfter | linkedin-agent/linkedin_helper.py:172-174 | `self.version` and the cache after a call; stated by the same three exit lemmas |
| Negotiation.Attempts | linkedin-agent/linkedin_helper.py:134-175 | how many requests a call sends; stated by the same three exit lemmas |
| Negotiation.LastError | linkedin-agent/linkedin_helper.py:151-170 | `last_ex` after the attempts so far; Negotiation.AllCandidatesFail states it is set after exhaustion |
| Negotiation.Probes | linkedin-agent/linkedin_helper.py:134-154 | the requests sent; their headers, verb, URL and body are stated by Negotiation.ProbeHeaders |
| Negotiation.ExpiredTokenStops | linkedin-agent/linkedin_helper.py:159-161 | an expired-token 401 raises `ExpiredTokenError` at once: no later candidate is tried and nothing is pinned |
| Negotiation.FirstAcceptedWins | linkedin-agent/linkedin_helper.py:172-175 | the first accepted attempt is returned whatever its status, pins its candidate, and ends the probing |
| Negotiation.AllCandidatesFail | linkedin-agent/linkedin_helper.py:151-180 | if every attempt fails or is rejected, `LinkedInVersionError` names every candidate and the last error; all were tried and nothing is pinned |
| Negotiation.NegotiateOutcomes | linkedin-agent/linkedin_helper.py:131-180 | a call succeeds exactly when it stops on an accepted attempt; it raises only an expired token or exhaustion, and a raising call pins nothing |
| Negotiation.ProbeHeaders | linkedin-agent/linkedin_helper.py:134-154 | every request sent carries the token, its candidate version and protocol 2.0.0 unless the caller overrides them on the first attempt; later attempts carry exactly those three headers |
| LinkedIn.ProfileResult | linkedin-agent/linkedin_helper.py:126-129 | profile discovery propagates request errors, raises on 4xx/5xx, and otherwise succeeds exactly when `sub` is present, with the person id from `sub` and the names from `given_name` and `family_name` or "" |
| LinkedIn.ProfileOf | linkedin-agent/linkedin_helper.py:76-79 | the profile read from `sub`, `given_name` and `family_name`; stated through LinkedIn.ProfileResult |
| LinkedIn.PostPayload | linkedin-agent/linkedin_helper.py:89-100 | the payload has the given author and text, visibility given-or-PUBLIC (never empty), main-feed distribution without targeting, PUBLISHED, resharing allowed |
| LinkedIn.PostResult | linkedin-agent/linkedin_helper.py:105-107 | a post succeeds exactly when the request succeeded with a non-error status and an `x-restli-id` header, whose value is returned |
| LinkedIn.ReadResult | linkedin-agent/linkedin_helper.py:119-123 | a feed read returns `None` exactly on a 403, raises `HttpError` on any other 4xx/5xx, and otherwise returns `elements` or an empty list |
| LinkedIn.FeedQuery | linkedin-agent/linkedin_helper.py:110-115 | the feed query by author, count and LAST_MODIFIED; sent as LinkedIn.Client.TryReadLatest states |
| LinkedIn.ReadForbiddenIsNone | linkedin-agent/linkedin_helper.py:116-121 | a 403 on the feed read gives `None`, not an error, and still pins its candidate |
| LinkedIn.PinnedVersionLeadsNextClient | linkedin-agent/linkedin_helper.py:67-70 | a version pinned by a request is the first candidate of every client constructed afterwards |
| LinkedIn.VersionCache.constructor | linkedin-agent/linkedin_helper.py:32 | the process cache starts empty |
| LinkedIn.Client.constructor | linkedin-agent/linkedin_helper.py:56-72 | the client's candidate list is built from lock, start and cache as the candidate-list function states, and no version is pinned yet |
| LinkedIn.Client.Request | linkedin-agent/linkedin_helper.py:131-180 | the fallback loop returns or raises what the negotiation functions say, sends exactly the requests they list, and pins `version` and the shared cache only on acceptance |
| LinkedIn.Client.Post | linkedin-agent/linkedin_helper.py:86-107 | a dry run returns "dry_run", sends nothing and pins nothing; otherwise the payload is POSTed through the fallback loop and the post id returned |
| LinkedIn.Client.TryReadLatest | linkedin-agent/linkedin_helper.py:109-123 | the feed query is sent through the fallback loop with Content-Type suppressed, and the result is read as the read-result function states |
| LinkedIn.Client.FetchProfile | linkedin-agent/linkedin_helper.py:75-79 | one GET of the userinfo endpoint; on success the person id, author URN and names are set from the profile |
| LinkedIn.NewClient | linkedin-agent/linkedin_helper.py:44-79 | a missing token fails before any request; otherwise the client has the built candidate list, one profile request is probed, and the cache is pinned as the loop says |
| LinkedIn.TokenOf | linkedin-agent/linkedin_helper.py:49 | `access_token or os.getenv("LINKEDIN_ACCESS_TOKEN", "")`; LinkedIn.NewClient states that an empty result fails with MissingToken |
| LinkedIn.StartOf | linkedin-agent/linkedin_helper.py:60 | `start_version or now.strftime("%Y%m")`; the start from which LinkedIn.NewClient builds its candidates |

## Left out

- The HTTP transport (`requests.Session.request`, the 30-second timeout, TLS): each attempt's outcome is a given `Raised` or `Answered` value.
- JSON decoding of responses (`r.json()`): a response carries its decoded top-level string fields and its `elements` list; a body that is not JSON is not modelled.
- OpenTelemetry spans, logging, `preview`, and the logging of the payload on a dry run: observability only.
- `datetime.now`, `os.getenv`: the current month, the token variable, the lock and the start are parameters.
- The `ValueError` that `strptime` raises on a malformed start: a well-formed start is required, and so is a start at least three months after January 1000 (glibc's `strftime` does not zero-pad years below 1000). Non-ASCII digits, which Python's `strptime` also accepts, are not modelled.
- `str.lower()` is modelled on ASCII letters only.
- The response's case-insensitive header dictionary: header names in a response are taken to be lower-case already.
- `urllib.parse.quote` of the author URN and `str(count)` in the feed query: the query holds the raw URN and the count as a number.
- Exception messages are structured values (`VersionExhausted(attempted, last)`, `VersionRefused(status, version, excerpt)`); the rendering of the final text is not modelled.
- Concurrent clients sharing the cache: the model is sequential.
- The CLI demo block, and all of `linkedin-agent/main.py` (agent hosting, chat and mail tools, the duplicate-post guard of its posting tool).
