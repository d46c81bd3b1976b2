/** What one `_request` call does, as functions of the candidate list and the
    outcome of each attempt: where the fallback loop stops, what it returns or
    raises, which version it pins and which requests it sends. */
module Negotiation {
  import opened Wrappers
  import opened Http

  /** The first attempt at or after `i`, among the first `n`, that ends the
      loop; `n` when every one of them moves on. */
  function StopFrom(outcomes: seq<Outcome>, i: nat, n: nat): (k: nat)
    requires i <= n <= |outcomes|
    ensures i <= k <= n
    ensures forall j :: i <= j < k ==> Retry(outcomes[j])
    ensures k < n ==> !Retry(outcomes[k])
    decreases n - i
  {
    if i == n then n
    else if !Retry(outcomes[i]) then i
    else StopFrom(outcomes, i + 1, n)
  }

  /** Index of the attempt that ends the loop over `versions`, or `|versions|`. */
  function Stop(versions: seq<string>, outcomes: seq<Outcome>): nat
    requires |versions| <= |outcomes|
  {
    StopFrom(outcomes, 0, |versions|)
  }

  /** The stopping attempt is the first attempt that does not move on. */
  lemma StopAt(versions: seq<string>, outcomes: seq<Outcome>, k: nat)
    requires k <= |versions| <= |outcomes|
    requires forall j :: 0 <= j < k ==> Retry(outcomes[j])
    requires k < |versions| ==> !Retry(outcomes[k])
    ensures Stop(versions, outcomes) == k
  {
  }

  /** The error in `last_ex` after the first `i` attempts all moved on. */
  function LastError(versions: seq<string>, outcomes: seq<Outcome>, i: nat): Option<AttemptError>
    requires i <= |versions| <= |outcomes|
  {
    if i == 0 then None
    else match outcomes[i - 1]
      case Raised(detail) => Some(TransportFailed(detail))
      case Answered(r) => Some(VersionRefused(r.status, versions[i - 1], Excerpt(r.text)))
  }

  /** What the call returns or raises. */
  function Negotiate(versions: seq<string>, outcomes: seq<Outcome>): Result<Response, ClientError>
    requires |versions| <= |outcomes|
  {
    var k := Stop(versions, outcomes);
    if k == |versions| then
      Failure(VersionExhausted(Join(versions, ", "), LastError(versions, outcomes, k)))
    else if Classify(outcomes[k]) == TokenExpired then Failure(ExpiredToken)
    else Success(outcomes[k].response)
  }

  /** The value of `self.version` (or of the shared cache) after the call,
      given its value `before`: only an accepted attempt writes it. */
  function PinnedAfter(versions: seq<string>, outcomes: seq<Outcome>, before: Option<string>): Option<string>
    requires |versions| <= |outcomes|
  {
    var k := Stop(versions, outcomes);
    if k < |versions| && Classify(outcomes[k]) == Accepted then Some(versions[k]) else before
  }

  /** How many requests the call sends. */
  function Attempts(versions: seq<string>, outcomes: seq<Outcome>): nat
    requires |versions| <= |outcomes|
  {
    var k := Stop(versions, outcomes);
    if k < |versions| then k + 1 else k
  }

  /** The request sent for candidate `j`: `kwargs.pop("headers")` hands the
      caller's headers to the first attempt only. */
  function ProbeFor(call: Call, token: string, versions: seq<string>, j: nat): Probe
    requires j < |versions|
  {
    var caller := if j == 0 then call.headers else map[];
    Probe(call.verb, call.url, ComposeHeaders(caller, token, versions[j]), call.body)
  }

  /** The requests for the first `count` candidates, in order. */
  function Probes(call: Call, token: string, versions: seq<string>, count: nat): (ps: seq<Probe>)
    requires count <= |versions|
  {
    if count == 0 then [] else Probes(call, token, versions, count - 1) + [ProbeFor(call, token, versions, count - 1)]
  }

  // ---------------------------------------------------------- properties

  /** A 401 carrying the expired-token marker, after attempts that all moved
      on, raises `ExpiredTokenError` at once: no later candidate is tried and
      nothing is pinned. */
  lemma ExpiredTokenStops(versions: seq<string>, outcomes: seq<Outcome>, k: nat, before: Option<string>)
    requires k < |versions| <= |outcomes|
    requires forall j :: 0 <= j < k ==> Retry(outcomes[j])
    requires Classify(outcomes[k]) == TokenExpired
    ensures Negotiate(versions, outcomes) == Failure(ExpiredToken)
    ensures PinnedAfter(versions, outcomes, before) == before
    ensures Attempts(versions, outcomes) == k + 1
  {
    StopAt(versions, outcomes, k);
  }

  /** The first attempt that is neither a transport error, an expired token nor
      a version rejection is returned whatever its status, pins its candidate,
      and no later candidate is tried. */
  lemma FirstAcceptedWins(versions: seq<string>, outcomes: seq<Outcome>, k: nat, before: Option<string>)
    requires k < |versions| <= |outcomes|
    requires forall j :: 0 <= j < k ==> Retry(outcomes[j])
    requires Classify(outcomes[k]) == Accepted
    ensures outcomes[k].Answered?
    ensures Negotiate(versions, outcomes) == Success(outcomes[k].response)
    ensures PinnedAfter(versions, outcomes, before) == Some(versions[k])
    ensures Attempts(versions, outcomes) == k + 1
  {
    StopAt(versions, outcomes, k);
  }

  /** When every candidate fails with a transport error or a version
      rejection, `LinkedInVersionError` names every candidate in order and
      carries the last attempt's error; every candidate was tried and nothing
      is pinned. */
  lemma AllCandidatesFail(versions: seq<string>, outcomes: seq<Outcome>, before: Option<string>)
    requires 0 < |versions| <= |outcomes|
    requires forall j :: 0 <= j < |versions| ==> Retry(outcomes[j])
    ensures Negotiate(versions, outcomes) ==
      Failure(VersionExhausted(Join(versions, ", "), LastError(versions, outcomes, |versions|)))
    ensures forall i :: 0 <= i < |versions| ==>
      Contains(Negotiate(versions, outcomes).error.attempted, versions[i])
    ensures LastError(versions, outcomes, |versions|).Some?
    ensures PinnedAfter(versions, outcomes, before) == before
    ensures Attempts(versions, outcomes) == |versions|
  {
    StopAt(versions, outcomes, |versions|);
    JoinNamesAll(versions, ", ");
  }

  /** Every call ends in exactly one of the three ways above: a response that
      pins its candidate, an expired token, or exhaustion; a call raises only
      those two errors. */
  lemma NegotiateOutcomes(versions: seq<string>, outcomes: seq<Outcome>, before: Option<string>)
    requires |versions| <= |outcomes|
    ensures Negotiate(versions, outcomes).Success? <==>
      Stop(versions, outcomes) < |versions| && Classify(outcomes[Stop(versions, outcomes)]) == Accepted
    ensures Negotiate(versions, outcomes).Success? ==>
      PinnedAfter(versions, outcomes, before) == Some(versions[Stop(versions, outcomes)])
    ensures Negotiate(versions, outcomes).Failure? ==>
      PinnedAfter(versions, outcomes, before) == before
      && (Negotiate(versions, outcomes).error == ExpiredToken || Negotiate(versions, outcomes).error.VersionExhausted?)
    ensures 1 <= Attempts(versions, outcomes) <= |versions| || |versions| == 0
  {
  }

  /** Every request sent carries the bearer token, the candidate as
      `LinkedIn-Version` and protocol 2.0.0, unless the caller's own headers
      (which reach the first attempt only) say otherwise; a caller header
      mapped to `None` is never sent. */
  lemma ProbeHeaders(call: Call, token: string, versions: seq<string>, count: nat)
    requires count <= |versions|
    ensures |Probes(call, token, versions, count)| == count
    ensures forall j :: 0 <= j < count ==>
      var h := Probes(call, token, versions, count)[j].headers;
      var caller := if j == 0 then call.headers else map[];
      && (forall name :: name in h <==>
            Supplied(caller, name) || name == AuthHeader || name == VersionHeader || name == ProtocolHeader)
      && (!Supplied(caller, AuthHeader) ==> h[AuthHeader] == "Bearer " + token)
      && (!Supplied(caller, VersionHeader) ==> h[VersionHeader] == versions[j])
      && (!Supplied(caller, ProtocolHeader) ==> h[ProtocolHeader] == ProtocolVersion)
      && (0 < j ==> h == map[AuthHeader := "Bearer " + token, VersionHeader := versions[j],
                             ProtocolHeader := ProtocolVersion])
    ensures forall j :: 0 <= j < count ==>
      var p := Probes(call, token, versions, count)[j];
      p.verb == call.verb && p.url == call.url && p.body == call.body
  {
    if count > 0 {
      ProbeHeaders(call, token, versions, count - 1);
      var h := ComposeHeaders(map[], token, versions[count - 1]);
      if count > 1 {
        assert h == map[AuthHeader := "Bearer " + token, VersionHeader := versions[count - 1],
                        ProtocolHeader := ProtocolVersion];
      }
    }
  }
}
