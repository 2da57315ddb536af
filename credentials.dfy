/**
 * The credential attachment every strategy produces, the errors the strategies
 * raise, and the two constant strategies (anonymous and static token).
 */
module Credentials {
  import opened Wrappers

  /** The one header key under which a bearer token travels with a call. */
  const AuthTicketKey: string := "x-ydb-auth-ticket"

  /** Per-call metadata: header entries in the order they were added. */
  type Attachment = seq<(string, string)>

  /** Every value added under `key`, in insertion order (what a metadata lookup yields). */
  function Values(m: Attachment, key: string): (vs: seq<string>)
    ensures |vs| <= |m|
    ensures forall v :: v in vs <==> exists i :: 0 <= i < |m| && m[i] == (key, v)
  {
    if m == [] then []
    else
      var rest := Values(m[1..], key);
      assert forall i :: 1 <= i < |m| ==> m[i] == m[1..][i - 1];
      if m[0].0 == key then [m[0].1] + rest else rest
  }

  /** A fresh attachment carrying `token` under the ticket key (makeCredentialsMetadata). */
  function MakeCredentialsMetadata(token: string): (m: Attachment)
    ensures |m| == 1 && Values(m, AuthTicketKey) == [token]
  {
    [(AuthTicketKey, token)]
  }

  /** Errors surfaced by the strategies. */
  datatype AuthError =
    | EmptyIamToken              // the exchange answered with an empty token
    | IamRequestTimeout          // the exchange did not answer within its timeout
    | IamCallFailed              // the exchange call itself failed
    | ProviderError              // the metadata token provider's initializer failed
    | MetadataExhausted(tries: nat)  // the legacy getter never produced a token

  /** The number a string of decimal digits denotes, most significant digit first. */
  function DigitsValue(s: string): nat
    requires forall i :: 0 <= i < |s| ==> '0' <= s[i] <= '9'
    decreases |s|
  {
    if s == [] then 0
    else DigitsValue(s[..|s| - 1]) * 10 + (s[|s| - 1] as int - '0' as int)
  }

  /** Decimal rendering of a natural number, as a template literal prints it. */
  function DecimalString(n: nat): (s: string)
    ensures |s| >= 1 && forall i :: 0 <= i < |s| ==> '0' <= s[i] <= '9'
    ensures DigitsValue(s) == n
    ensures s[0] == '0' ==> s == "0"
  {
    var d := [('0' as int + n % 10) as char];
    if n < 10 then d
    else
      var high := DecimalString(n / 10);
      assert (high + d)[..|high + d| - 1] == high;
      high + d
  }

  /**
   * The message of an error thrown by this core; None for errors whose text
   * comes from code outside it (the timeout helper, the transport, the provider).
   */
  function Message(e: AuthError): (msg: Option<string>)
    ensures msg.Some? <==> e.EmptyIamToken? || e.MetadataExhausted?
    ensures e.EmptyIamToken? ==> msg == Some("Received empty token from IAM!")
    ensures e.MetadataExhausted? ==>
      msg.value == "Failed to fetch access token via metadata service in " + DecimalString(e.tries) + " tries!"
  {
    match e
    case EmptyIamToken => Some("Received empty token from IAM!")
    case MetadataExhausted(tries) =>
      Some("Failed to fetch access token via metadata service in " + DecimalString(tries) + " tries!")
    case _ => None
  }

  /** The strategy that sends no credentials. */
  datatype AnonymousAuthService = AnonymousAuthService {
    /** Always succeeds, with an attachment that has no entries at all. */
    function GetAuthMetadata(): (m: Attachment)
      ensures |m| == 0 && Values(m, AuthTicketKey) == []
    {
      []
    }
  }

  /** The strategy that sends one fixed token, given at construction. */
  datatype TokenAuthService = TokenAuthService(token: string) {
    /** Always succeeds, with exactly one entry: the ticket key mapped to the fixed token. */
    function GetAuthMetadata(): (m: Attachment)
      ensures |m| == 1 && Values(m, AuthTicketKey) == [token]
    {
      MakeCredentialsMetadata(token)
    }
  }
}
