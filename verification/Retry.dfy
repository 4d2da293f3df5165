/** Which errors are worth retrying (app/core/retry.py), and what the three task handlers decide. */
module Retry {
  import opened Common

  datatype ErrorClass = ValueError | AssertionError | TypeError | IntegrityError
                      | TimeoutError | ConnectionError | OsError | OperationalError
                      | ProviderError | ProviderTimeout | ProviderResponse | SoftTimeLimit | OtherClass(name: string)

  /** An exception is known by the classes it is an instance of. */
  type Exception = set<ErrorClass>

  predicate IsDefinitive(e: Exception) {
    if ValueError in e || AssertionError in e || TypeError in e || IntegrityError in e then true
    else ProviderResponse in e
  }

  predicate IsTransient(e: Exception) {
    if IsDefinitive(e) then false
    else if TimeoutError in e || ConnectionError in e || OsError in e then true
    else if OperationalError in e || ProviderTimeout in e then true
    else if ProviderError in e && ProviderResponse !in e then true
    else true
  }

  datatype Decision = DeadLetter | RetryIn(seconds: int)

  function ScoreDecision(e: Exception, retries: nat, maxRetries: nat): Decision {
    var transient := IsTransient(e) || SoftTimeLimit in e;
    if IsDefinitive(e) || !transient then DeadLetter
    else if retries >= maxRetries then DeadLetter
    else RetryIn(Max(1, Pow2(retries)))
  }

  function RoadmapDecision(e: Exception, retries: nat, maxRetries: nat): Decision {
    var transient := IsTransient(e) || SoftTimeLimit in e;
    var deadLetter := IsDefinitive(e) || !transient || retries >= maxRetries;
    if deadLetter then DeadLetter else RetryIn(Max(1, Pow2(retries)))
  }

  function IngestionDecision(e: Exception, retries: nat, maxRetries: nat, base: int): Decision {
    if IsDefinitive(e) || !IsTransient(e) || retries >= maxRetries then DeadLetter
    else RetryIn(Max(1, base * Pow2(retries)))
  }

  /**
    Every exception is either definitive or transient, so the three handlers dead-letter alike: exactly the
    definitive errors and the errors of the last try. A soft time limit alone is always retried.
  */
  lemma HandlersAgree(e: Exception, retries: nat, maxRetries: nat, base: int)
    ensures IsTransient(e) <==> !IsDefinitive(e)
    ensures ScoreDecision(e, retries, maxRetries) == RoadmapDecision(e, retries, maxRetries)
    ensures ScoreDecision(e, retries, maxRetries).DeadLetter? <==> IsDefinitive(e) || retries >= maxRetries
    ensures IngestionDecision(e, retries, maxRetries, base).DeadLetter? <==> ScoreDecision(e, retries, maxRetries).DeadLetter?
    ensures IngestionDecision(e, retries, maxRetries, 1) == ScoreDecision(e, retries, maxRetries)
  {
  }
}
