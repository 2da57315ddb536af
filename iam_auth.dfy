/**
 * The signed-exchange strategy (IamAuthService): a service-account JWT is
 * exchanged for an IAM token, which is cached together with the time it was
 * received and reused until it is more than two minutes old.
 *
 * Clock readings are milliseconds passed in as `now`; the exchange is an
 * oracle whose reply is supplied to the call.
 */
module IamAuth {
  import opened Wrappers
  import opened Credentials

  /** Lifetime written into the JWT, in milliseconds. */
  const JwtExpirationTimeout: int := 3600 * 1000
  /** Age after which the cached IAM token is refreshed, in milliseconds. */
  const TokenExpirationTimeout: int := 120 * 1000
  /** The fixed audience of every JWT: the IAM tokens endpoint. */
  const IamTokensAudience: string := "https://iam.api.cloud.yandex.net/iam/v1/tokens"
  /** The signature scheme named in the JWT header (RSASSA-PSS with SHA-256). */
  const SigningAlgorithm: string := "PS256"

  /** Service-account credentials, supplied once and never changed. */
  datatype IamCredentials = IamCredentials(
    serviceAccountId: string,
    accessKeyId: string,
    privateKey: seq<bv8>,
    iamEndpoint: string)

  /** The registered claims the JWT carries; times in seconds since the epoch. */
  datatype JwtClaims = JwtClaims(iss: string, aud: string, iat: int, exp: int)

  /** What is signed and sent: header fields and claims. The signature itself is opaque. */
  datatype JwtRequest = JwtRequest(alg: string, kid: string, claims: JwtClaims)

  /** Math.round of a millisecond time converted to seconds (halves round up). */
  function RoundToSeconds(ms: int): (s: int)
    ensures s * 1000 - 500 <= ms < s * 1000 + 500
  {
    (ms + 500) / 1000
  }

  /** The JWT built at time `now` (getJwtRequest). */
  function GetJwtRequest(cred: IamCredentials, now: int): (req: JwtRequest)
    ensures req.alg == SigningAlgorithm && req.kid == cred.accessKeyId
    ensures req.claims.iss == cred.serviceAccountId && req.claims.aud == IamTokensAudience
    ensures req.claims.iat * 1000 - 500 <= now < req.claims.iat * 1000 + 500
    ensures req.claims.exp - req.claims.iat == JwtExpirationTimeout / 1000
  {
    JwtRequest(SigningAlgorithm, cred.accessKeyId,
      JwtClaims(cred.serviceAccountId, IamTokensAudience,
        RoundToSeconds(now), RoundToSeconds(now + JwtExpirationTimeout)))
  }

  /** What the token exchange gave back: an IAM token (possibly empty) and when it arrived, or an error. */
  datatype ExchangeReply =
    | Reply(iamToken: string, receivedAt: int)
    | TimedOut
    | CallFailed

  /** The cached token and the time it was received (None before the first success). */
  datatype CacheState = CacheState(token: string, tokenTimestamp: Option<int>)

  /** The state of a freshly constructed service. */
  const InitialCache: CacheState := CacheState("", None)

  /** A timestamp only ever accompanies a token that is not empty. */
  predicate CacheValid(s: CacheState) {
    s.tokenTimestamp.Some? ==> s.token != ""
  }

  /** The cache must be refreshed: no token yet, or it is more than 120 s old at `now`. */
  predicate IsExpired(tokenTimestamp: Option<int>, now: int) {
    tokenTimestamp.None? || now - tokenTimestamp.value > TokenExpirationTimeout
  }

  /** Expiry is strict: exactly 120000 ms old is still fresh, one more is expired, and it never un-expires as time runs on. */
  lemma ExpiryBoundary(t: int, now: int, later: int)
    requires now <= later
    ensures IsExpired(None, now)
    ensures !IsExpired(Some(t), t + TokenExpirationTimeout)
    ensures IsExpired(Some(t), t + TokenExpirationTimeout + 1)
    ensures IsExpired(Some(t), now) ==> IsExpired(Some(t), later)
  {
  }

  /** Result of one getAuthMetadata call: new cache, what was returned, and the JWT sent (if any). */
  datatype Served = Served(next: CacheState, result: Result<Attachment, AuthError>, request: Option<JwtRequest>)

  /** How updateToken treats a reply: commit a non-empty token, otherwise fail and keep the cache. */
  function Commit(reply: ExchangeReply): (r: Result<CacheState, AuthError>)
    ensures r.Success? <==> reply.Reply? && reply.iamToken != ""
    ensures r.Success? ==> r.value.token == reply.iamToken && r.value.tokenTimestamp == Some(reply.receivedAt)
    ensures r.Success? ==> CacheValid(r.value) && !IsExpired(r.value.tokenTimestamp, reply.receivedAt)
    ensures reply.Reply? && reply.iamToken == "" ==> r == Failure(EmptyIamToken)
    ensures reply.TimedOut? ==> r == Failure(IamRequestTimeout)
    ensures reply.CallFailed? ==> r == Failure(IamCallFailed)
  {
    match reply
    case Reply(tok, at) => if tok != "" then Success(CacheState(tok, Some(at))) else Failure(EmptyIamToken)
    case TimedOut => Failure(IamRequestTimeout)
    case CallFailed => Failure(IamCallFailed)
  }

  /** Specification of getAuthMetadata on the cache: serve from cache when fresh, else exchange. */
  function Serve(cred: IamCredentials, s: CacheState, now: int, reply: ExchangeReply): (o: Served)
    ensures !IsExpired(s.tokenTimestamp, now) ==>
      o == Served(s, Success(MakeCredentialsMetadata(s.token)), None)
    ensures IsExpired(s.tokenTimestamp, now) ==> o.request == Some(GetJwtRequest(cred, now))
    ensures IsExpired(s.tokenTimestamp, now) && reply.Reply? && reply.iamToken != "" ==>
      o.next == CacheState(reply.iamToken, Some(reply.receivedAt)) &&
      o.result == Success(MakeCredentialsMetadata(reply.iamToken))
    ensures IsExpired(s.tokenTimestamp, now) && reply.Reply? && reply.iamToken == "" ==>
      o.result == Failure(EmptyIamToken)
    ensures IsExpired(s.tokenTimestamp, now) && reply.TimedOut? ==> o.result == Failure(IamRequestTimeout)
    ensures IsExpired(s.tokenTimestamp, now) && reply.CallFailed? ==> o.result == Failure(IamCallFailed)
    ensures o.result.Failure? ==> o.next == s
    ensures CacheValid(s) ==> CacheValid(o.next)
    ensures CacheValid(s) && o.result.Success? ==>
      o.next.token != "" && o.result.value == MakeCredentialsMetadata(o.next.token)
  {
    if !IsExpired(s.tokenTimestamp, now) then
      Served(s, Success(MakeCredentialsMetadata(s.token)), None)
    else
      var request := Some(GetJwtRequest(cred, now));
      match Commit(reply)
      case Success(s') => Served(s', Success(MakeCredentialsMetadata(s'.token)), request)
      case Failure(e) => Served(s, Failure(e), request)
  }

  /** The service as the source keeps it: a cache updated in place. */
  class IamAuthService {
    const iamCredentials: IamCredentials
    var token: string
    var tokenTimestamp: Option<int>

    function State(): CacheState
      reads this
    {
      CacheState(token, tokenTimestamp)
    }

    predicate Valid()
      reads this
    {
      CacheValid(State())
    }

    constructor (iamCredentials: IamCredentials)
      ensures Valid()
      ensures this.iamCredentials == iamCredentials && State() == InitialCache
      ensures forall now :: Expired(now)
    {
      this.iamCredentials := iamCredentials;
      token := "";
      tokenTimestamp := None;
    }

    /** The `expired` getter, read at time `now`. */
    predicate Expired(now: int)
      reads this
    {
      IsExpired(tokenTimestamp, now)
    }

    /** Sends a fresh JWT and commits the reply only if it carries a non-empty token. */
    method UpdateToken(now: int, reply: ExchangeReply) returns (r: Outcome<AuthError>, request: JwtRequest)
      requires Valid()
      modifies this
      ensures Valid()
      ensures request == GetJwtRequest(iamCredentials, now)
      ensures r.Pass? <==> Commit(reply).Success?
      ensures r.Pass? ==> State() == Commit(reply).value
      ensures r.Fail? ==> r.error == Commit(reply).error
      ensures r.Pass? <==> reply.Reply? && reply.iamToken != ""
      ensures r.Pass? ==> token == reply.iamToken && tokenTimestamp == Some(reply.receivedAt)
      ensures reply.Reply? && reply.iamToken == "" ==> r == Fail(EmptyIamToken)
      ensures reply.TimedOut? ==> r == Fail(IamRequestTimeout)
      ensures reply.CallFailed? ==> r == Fail(IamCallFailed)
      ensures r.Fail? ==> token == old(token) && tokenTimestamp == old(tokenTimestamp)
    {
      request := GetJwtRequest(iamCredentials, now);
      match reply
      case Reply(iamToken, receivedAt) =>
        if iamToken != "" {
          token := iamToken;
          tokenTimestamp := Some(receivedAt);
          r := Pass;
        } else {
          r := Fail(EmptyIamToken);
        }
      case TimedOut =>
        r := Fail(IamRequestTimeout);
      case CallFailed =>
        r := Fail(IamCallFailed);
    }

    /** Returns the cached token, refreshing it first when it has expired at `now`. */
    method GetAuthMetadata(now: int, reply: ExchangeReply)
      returns (r: Result<Attachment, AuthError>, request: Option<JwtRequest>)
      requires Valid()
      modifies this
      ensures Valid()
      ensures Served(State(), r, request) == Serve(iamCredentials, old(State()), now, reply)
      ensures !old(Expired(now)) ==>
        request.None? && State() == old(State()) && r == Success(MakeCredentialsMetadata(token))
      ensures old(Expired(now)) ==> request == Some(GetJwtRequest(iamCredentials, now))
      ensures old(Expired(now)) && reply.Reply? && reply.iamToken != "" ==>
        token == reply.iamToken && tokenTimestamp == Some(reply.receivedAt) &&
        r == Success(MakeCredentialsMetadata(reply.iamToken))
      ensures old(Expired(now)) && !(reply.Reply? && reply.iamToken != "") ==> r == Failure(Commit(reply).error)
      ensures r.Success? ==> token != "" && Values(r.value, AuthTicketKey) == [token]
      ensures r.Failure? ==> State() == old(State())
    {
      request := None;
      if Expired(now) {
        var outcome, sent := UpdateToken(now, reply);
        request := Some(sent);
        if outcome.Fail? {
          r := Failure(outcome.error);
          return;
        }
      }
      r := Success(MakeCredentialsMetadata(token));
    }
  }

  /** One call to getAuthMetadata: when it is made and what the exchange would answer. */
  datatype Call = Call(now: int, reply: ExchangeReply)

  /** The outcomes of a sequence of calls made one after another on one service. */
  function Run(cred: IamCredentials, s: CacheState, calls: seq<Call>): (outs: seq<Served>)
    ensures |outs| == |calls|
    decreases |calls|
  {
    if calls == [] then []
    else
      var o := Serve(cred, s, calls[0].now, calls[0].reply);
      [o] + Run(cred, o.next, calls[1..])
  }

  /** While no call is more than 120 s after the cached token arrived, every call is a cache hit. */
  lemma {:induction false} CachedWithinWindow(cred: IamCredentials, s: CacheState, calls: seq<Call>)
    requires s.tokenTimestamp.Some?
    requires forall i :: 0 <= i < |calls| ==> calls[i].now - s.tokenTimestamp.value <= TokenExpirationTimeout
    ensures forall i :: 0 <= i < |calls| ==>
      Run(cred, s, calls)[i] == Served(s, Success(MakeCredentialsMetadata(s.token)), None)
  {
    if calls != [] {
      CachedWithinWindow(cred, s, calls[1..]);
    }
  }

  /** Replies that carry no token never change the cache, so only cache hits can succeed. */
  lemma {:induction false} FailedExchangesKeepCache(cred: IamCredentials, s: CacheState, calls: seq<Call>)
    requires forall i :: 0 <= i < |calls| ==> !(calls[i].reply.Reply? && calls[i].reply.iamToken != "")
    ensures forall i :: 0 <= i < |calls| ==> Run(cred, s, calls)[i].next == s
    ensures forall i :: 0 <= i < |calls| ==>
      Run(cred, s, calls)[i].result.Success? ==> !IsExpired(s.tokenTimestamp, calls[i].now)
  {
    if calls != [] {
      FailedExchangesKeepCache(cred, s, calls[1..]);
    }
  }

  /** A fresh service whose exchanges never yield a token fails every call and stays unset. */
  lemma FreshServiceWithoutTokenFails(cred: IamCredentials, calls: seq<Call>)
    requires forall i :: 0 <= i < |calls| ==> !(calls[i].reply.Reply? && calls[i].reply.iamToken != "")
    ensures forall i :: 0 <= i < |calls| ==>
      Run(cred, InitialCache, calls)[i].result.Failure? && Run(cred, InitialCache, calls)[i].next == InitialCache
  {
    FailedExchangesKeepCache(cred, InitialCache, calls);
  }

  /** Along any run from a valid cache, every successful call sends exactly the non-empty cached token. */
  lemma {:induction false} RunTicketsNonEmpty(cred: IamCredentials, s: CacheState, calls: seq<Call>)
    requires CacheValid(s)
    ensures forall i :: 0 <= i < |calls| ==> CacheValid(Run(cred, s, calls)[i].next)
    ensures forall i :: 0 <= i < |calls| ==> Run(cred, s, calls)[i].result.Success? ==>
      Run(cred, s, calls)[i].next.token != "" &&
      Values(Run(cred, s, calls)[i].result.value, AuthTicketKey) == [Run(cred, s, calls)[i].next.token]
    decreases |calls|
  {
    if calls != [] {
      var o := Serve(cred, s, calls[0].now, calls[0].reply);
      RunTicketsNonEmpty(cred, o.next, calls[1..]);
    }
  }

  /**
   * A call made after the cache expired, whose exchange yields a token, refreshes the
   * cache; every later call within 120 s of that reply is then served the new token
   * without another exchange.
   */
  lemma {:induction false} RefreshThenCached(cred: IamCredentials, s: CacheState, first: Call, later: seq<Call>)
    requires IsExpired(s.tokenTimestamp, first.now)
    requires first.reply.Reply? && first.reply.iamToken != ""
    requires forall i :: 0 <= i < |later| ==>
      later[i].now - first.reply.receivedAt <= TokenExpirationTimeout
    ensures Run(cred, s, [first] + later)[0] ==
      Served(CacheState(first.reply.iamToken, Some(first.reply.receivedAt)),
             Success(MakeCredentialsMetadata(first.reply.iamToken)),
             Some(GetJwtRequest(cred, first.now)))
    ensures forall i :: 1 <= i <= |later| ==>
      Run(cred, s, [first] + later)[i] ==
        Served(CacheState(first.reply.iamToken, Some(first.reply.receivedAt)),
               Success(MakeCredentialsMetadata(first.reply.iamToken)), None)
  {
    var refreshed := CacheState(first.reply.iamToken, Some(first.reply.receivedAt));
    var calls := [first] + later;
    assert calls[0] == first && calls[1..] == later;
    CachedWithinWindow(cred, refreshed, later);
  }
}
