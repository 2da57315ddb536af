# Credential strategies of the YDB Node.js SDK, modelled in Dafny

This project models `src/credentials.ts`: the strategies that produce the
per-call auth attachment, a header bundle whose one key is
`x-ydb-auth-ticket`.

- `wrappers.dfy` — `Option`, `Result` and `Outcome` datatypes. They stand in for thrown errors.
- `credentials.dfy` (module `Credentials`) — the attachment as a sequence of
  `(key, value)` pairs, with a lookup function `Values` playing the role of a
  metadata lookup. Also `makeCredentialsMetadata`, the error kinds and their
  messages, and the two constant strategies `AnonymousAuthService` and
  `TokenAuthService`. These are pure, so they are datatypes with functions.
- `iam_auth.dfy` (module `IamAuth`) — `IamAuthService`:
  - the JWT claims (`iss`, `aud`, `iat`, `exp`, registered claims of
    section 4.1 of RFC 7519) and header fields (`alg` = PS256, `kid`);
  - the `expired` predicate;
  - a class `IamAuthService` whose fields `token` and `tokenTimestamp` are
    updated in place by `UpdateToken` and read by `GetAuthMetadata`.
  
  The same behaviour is also written as pure functions on a `CacheState`
  value: `Commit` for `updateToken`'s decision and `Serve` for one
  `getAuthMetadata` call. `UpdateToken` is proved to agree with `Commit`, and
  `GetAuthMetadata` is proved equal to `Serve`. Lemmas about runs of
  successive calls (`Run`) are proved on `Serve`.
- `metadata_auth.dfy` (module `MetadataAuth`) —
  `MetadataAuthService.getAuthMetadataCompat` as a method with a `while` loop.

External effects become inputs:
- The clock is an integer `now` in milliseconds.
- The IAM exchange is a supplied `ExchangeReply`. It is either a token
  (possibly empty) together with the clock reading taken when the reply
  arrived, or a timeout, or a failed call.
- The legacy token provider is a function `getToken: nat -> string`, giving
  what the k-th call of its getter returns, plus an `Initializer` value:
  absent, resolves or rejects.
- `sleep(2000)` is counted: each retry is preceded by one sleep, and the
  method reports the total time slept.
- A JavaScript `undefined` token and an empty string are both falsy in the
  source, so the model writes both as `""`.

Three facts about the code that the model keeps:
- Expiry is strict (`>` at line 87). A token exactly 120000 ms old is still
  served from cache; only elapsed time above 120000 ms triggers an exchange.
- The cached timestamp is the clock reading taken after the reply arrives
  (`DateTime.utc()` at line 100), not the time the call started.
- Three empty reads followed by a token need exactly two 2000 ms sleeps only
  when the provider has an initializer (one read, the initializer, a second
  read, then the loop). Without one, they need three sleeps.

## Model

| member | source | states |
|---|---|---|
| `Credentials.MakeCredentialsMetadata` | src/credentials.ts:12-16 | the attachment has exactly one entry, and looking up `x-ydb-auth-ticket` yields exactly the given token |
| `Credentials.Message` | src/credentials.ts:102-148 | only the empty-token and exhausted-retries errors have messages defined by this file; the empty-token text is "Received empty token from IAM!"; the exhausted message embeds the try count in decimal |
| `Credentials.DecimalString` | src/credentials.ts:148 | the `${MAX_TRIES}` interpolation: a non-empty string of decimal digits whose value is exactly the number, with no leading zero |
| `Credentials.AnonymousAuthService.GetAuthMetadata` | src/credentials.ts:35-40 | always succeeds with an attachment that has no entries, so no ticket |
| `Credentials.TokenAuthService.GetAuthMetadata` | src/credentials.ts:42-48 | always succeeds with exactly one entry: the ticket key mapped to the constructor's token |
| `IamAuth.RoundToSeconds` | src/credentials.ts:75-76 | `Math.round(ms / 1000)`: the result is the whole second within half a second of the input, with halves rounding up |
| `IamAuth.GetJwtRequest` | src/credentials.ts:69-83 | `iss` is the service-account id, `aud` is the fixed IAM tokens URL, `iat` is `now` rounded to seconds, `exp - iat` is exactly 3600, `kid` is the access-key id and `alg` is PS256 |
| `IamAuth.ExpiryBoundary` | src/credentials.ts:85-89 | with no timestamp the cache is expired; 120000 ms after the timestamp it is not expired, and 120001 ms after it is; once expired it stays expired as time advances |
| `IamAuth.Commit` | src/credentials.ts:96-104 | a reply commits if and only if it carries a non-empty token; the committed state holds that token stamped with the reply's arrival time and is valid and fresh at that time; an empty token gives the empty-token error, a timeout the timeout error, a failed call the call error |
| `IamAuth.Serve` | src/credentials.ts:106-111 | a fresh cache is served unchanged with no exchange; an expired one sends the JWT built at `now`, and on a non-empty reply succeeds with that token and caches it with the reply's arrival time, while an empty reply, a timeout or a failed call gives its own error; a failure leaves the cache as it was; a valid cache stays valid, and a success carries exactly the non-empty cached token |
| `IamAuth.IamAuthService.constructor` | src/credentials.ts:54-67 | a new service has an empty token and no timestamp, so it is expired at every time and its first call always exchanges |
| `IamAuth.IamAuthService.UpdateToken` | src/credentials.ts:91-104 | agrees with `Commit` on outcome, new state and error; sends the JWT for `now`; on a non-empty token sets `token` and `tokenTimestamp`; on an empty token fails with the empty-token error, on a timeout or failed call with those errors, and in every failure leaves both fields unchanged |
| `IamAuth.IamAuthService.GetAuthMetadata` | src/credentials.ts:106-111 | equals `Serve` on the old fields; when not expired it makes no exchange, leaves both fields unchanged and returns the cached token; when expired it sends the JWT for `now`, and a non-empty reply becomes the new `token` with `tokenTimestamp` its arrival time and is returned, while any other reply fails with `Commit`'s error; a success returns exactly the non-empty token now held |
| `IamAuth.CachedWithinWindow` | src/credentials.ts:85-111 | along a run of calls none of which is more than 120000 ms after the cached token's timestamp, every call is a cache hit: no exchange, same state, same ticket |
| `IamAuth.FailedExchangesKeepCache` | src/credentials.ts:96-111 | if no reply in a run carries a token, the cache never changes, and a call can succeed only when the cache was fresh at its time |
| `IamAuth.FreshServiceWithoutTokenFails` | src/credentials.ts:96-111 | a new service whose exchanges never yield a token fails every call and its cache stays unset |
| `IamAuth.RefreshThenCached` | src/credentials.ts:85-111 | after the cache has expired, a call whose reply carries a token refreshes the cache and returns that token, and every later call within 120000 ms of that reply returns the same token with no exchange |
| `IamAuth.RunTicketsNonEmpty` | src/credentials.ts:96-111 | along any run from a valid cache, the cache stays valid and every successful call returns exactly the non-empty token then cached |
| `MetadataAuth.GetAuthMetadataCompat` | src/credentials.ts:131-149 | see the note below the table |
| `MetadataAuth.ExhaustedMessage` | src/credentials.ts:132-148 | the exhaustion error reads "Failed to fetch access token via metadata service in 5 tries!" |

`MetadataAuth.GetAuthMetadataCompat` states:
- A non-empty first read succeeds at once with that token. It makes no
  initializer call and no sleep.
- The initializer is awaited if and only if the first read was empty and an
  initializer exists. A rejecting initializer fails the call before any
  further read.
- Otherwise the number of reads is 1, plus 1 after the initializer, plus one
  per retry. There are at most 5 retries, each after a
  2000 ms sleep.
- Every read but the last came back empty.
- The call succeeds if and only if the last read is non-empty, and then it
  returns that token.
- If it fails, all 5 retries were spent and the error names 5 tries.

## Left out

- gRPC `Metadata`, the `GrpcService` base class, SSL credentials and the
  `IamTokenService` stub are transport code from other libraries. The
  attachment is a sequence of pairs, and the exchange is a supplied reply.
- JWT signing (`jwt.sign` with PS256) is not modelled. Only the header fields
  and claim values are kept, and the signature is treated as opaque.
- Luxon `DateTime` arithmetic is replaced by integer milliseconds. The model
  does not cover the floating-point conversion in `toSeconds()`.
- The expiry check and the JWT's `iat` read the clock at two nearly
  simultaneous moments. The model uses one `now` for both.
- `withTimeout` and its 10 s bound (lines 53 and 93) are not modelled. They
  live in `src/utils`, which is not part of this model. A timeout is one
  possible reply, `TimedOut`, mapped to the error `IamRequestTimeout`. Its
  message text is not modelled.
- The real `sleep(2000)` is not modelled. Only the number of sleeps and
  their total length are counted.
- The modern path of `MetadataAuthService.getAuthMetadata` (lines 121-124)
  is not modelled. It branches on `instanceof MetadataTokenService` and is a
  direct call into a library not included here, whose errors pass through
  unchanged.
- The `MetadataAuthService` constructor's default provider is not modelled.
- An exception thrown by the legacy `getToken` itself is not modelled.
- Concurrent callers refreshing at the expiry boundary are not modelled. The
  source applies no locking, and each call here runs to completion before the
  next one starts.
- `src/typed-data.ts`, `src/index.ts` and `jest.config.dev.base.js` are not
  modelled. They are value marshalling built on foreign decorators,
  re-exports, and test configuration.
- Repeated calls of the anonymous and static strategies are pure functions
  of their construction arguments. Their idempotence therefore holds by
  construction and has no separate lemma.
