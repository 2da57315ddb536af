/**
 * The local-metadata strategy's compatibility path (getAuthMetadataCompat):
 * poll a legacy token provider's synchronous getter, optionally after
 * awaiting its initializer once, then retry with a fixed delay a bounded
 * number of times.
 *
 * The provider is an oracle: `getToken(k)` is what the k-th call of its
 * getter returns (0-based), with "" standing for both an empty string and
 * undefined. Sleeping is only counted.
 */
module MetadataAuth {
  import opened Wrappers
  import opened Credentials

  /** Number of sleep-then-read retries after the direct read(s). */
  const MaxTries: nat := 5
  /** Delay before each retry, in milliseconds. */
  const RetryDelay: nat := 2000

  /** The provider's optional async initializer: missing, or present and how its promise settles. */
  datatype Initializer = Absent | Resolves | Rejects

  /**
   * Runs the compatibility path. Out-parameters: the attachment or error,
   * how many times the getter was called, whether the initializer was
   * awaited, how many retries were made, and the total time slept before them.
   */
  method GetAuthMetadataCompat(getToken: nat -> string, initialize: Initializer)
    returns (r: Result<Attachment, AuthError>, calls: nat, initialized: bool, tries: nat, slept: nat)
    // a direct token wins at once: no initializer, no sleep
    ensures getToken(0) != "" ==>
      r == Success(MakeCredentialsMetadata(getToken(0))) && calls == 1 && !initialized && tries == 0
    // the initializer is awaited only after an empty first read, and only if it exists
    ensures initialized <==> getToken(0) == "" && initialize != Absent
    // its failure propagates before any further read or sleep
    ensures initialized && initialize == Rejects ==> r == Failure(ProviderError) && calls == 1 && tries == 0
    ensures tries <= MaxTries
    ensures slept == tries * RetryDelay
    // every read before the last one came back empty
    ensures forall k :: 0 <= k < calls - 1 ==> getToken(k) == ""
    // otherwise one read, one more after the initializer, and one per retry; the loop stops
    // at the first non-empty token, which is what succeeds, or after all five retries
    ensures !(initialized && initialize == Rejects) ==>
      && calls == 1 + (if initialized then 1 else 0) + tries
      && (r.Success? <==> getToken(calls - 1) != "")
      && (r.Failure? ==> tries == MaxTries && r.error == MetadataExhausted(MaxTries))
    ensures r.Success? ==> r.value == MakeCredentialsMetadata(getToken(calls - 1))
  {
    calls, initialized, tries, slept := 0, false, 0, 0;
    var token := getToken(calls);
    calls := calls + 1;
    if token == "" && initialize != Absent {
      initialized := true;
      if initialize == Rejects {
        r := Failure(ProviderError);
        return;
      }
      token := getToken(calls);
      calls := calls + 1;
    }
    while token == "" && tries < MaxTries
      invariant tries <= MaxTries
      invariant slept == tries * RetryDelay
      invariant calls == 1 + (if initialized then 1 else 0) + tries
      invariant token == getToken(calls - 1)
      invariant forall k :: 0 <= k < calls - 1 ==> getToken(k) == ""
      invariant tries > 0 ==> getToken(0) == ""
      decreases MaxTries - tries
    {
      slept := slept + RetryDelay;
      tries := tries + 1;
      token := getToken(calls);
      calls := calls + 1;
    }
    if token != "" {
      r := Success(MakeCredentialsMetadata(token));
    } else {
      r := Failure(MetadataExhausted(MaxTries));
    }
  }

  /** The exhaustion error reads exactly as the source's message with five tries. */
  lemma ExhaustedMessage()
    ensures Message(MetadataExhausted(MaxTries)) ==
      Some("Failed to fetch access token via metadata service in 5 tries!")
  {
    assert DecimalString(MaxTries) == "5";
    assert "Failed to fetch access token via metadata service in " + "5" + " tries!"
      == "Failed to fetch access token via metadata service in 5 tries!";
  }

  /** Two illustrative provider behaviours, checked against the contract above. */
  method CompatScenarios()
  {
    // empty on the first three reads, a token on the fourth, initializer present:
    // read, initialize, read, then two sleeps of 2000 ms
    var provider: nat -> string := k => if k < 3 then "" else "T";
    assert provider(0) == provider(1) == provider(2) == "" && provider(3) == "T";
    var r, calls, initialized, tries, slept := GetAuthMetadataCompat(provider, Resolves);
    assert calls == 4 && tries == 2 && slept == 4000 && initialized;
    assert r == Success(MakeCredentialsMetadata("T"));

    // never a token and no initializer: one direct read plus five retries, then the error
    provider := k => "";
    r, calls, initialized, tries, slept := GetAuthMetadataCompat(provider, Absent);
    assert calls == 6 && tries == MaxTries && slept == 10000 && r == Failure(MetadataExhausted(5));
  }
}
