/**
  Source quarantine and the retrying data gateway (apps/ingestion/gateway.py and
  the source rows of apps/ingestion/repositories.py), refining Breaker.
*/
module SourceHealth {
  import opened Common
  import opened Breaker

  class SourceRow {
    var consecutiveFailures: nat
    var quarantineUntil: Option<int>
    var quarantineReason: Option<string>

    constructor ()
      ensures Abstract() == HEALTHY
    {
      consecutiveFailures, quarantineUntil, quarantineReason := 0, None, None;
    }

    function Abstract(): Health reads this {
      Health(consecutiveFailures, quarantineUntil)
    }

    method IncreaseFailure(reason: string, until: Option<int>)
      modifies this
      ensures consecutiveFailures == old(consecutiveFailures) + 1
      ensures quarantineUntil == until && quarantineReason == Some(reason)
    {
      consecutiveFailures := consecutiveFailures + 1;
      quarantineReason := Some(reason);
      quarantineUntil := until;
    }

    method ResetHealth()
      modifies this
      ensures Abstract() == HEALTHY && quarantineReason == None
    {
      consecutiveFailures, quarantineUntil, quarantineReason := 0, None, None;
    }
  }

  /** The scheduler picks exactly the active sources whose gate is open. */
  predicate Schedulable(isActive: bool, h: Health, now: int) {
    isActive && (h.blockedUntil.None? || h.blockedUntil.value <= now)
  }

  lemma SchedulerAgreesWithGate(h: Health, now: int)
    ensures Schedulable(true, h, now) <==> !Blocked(h, now)
  {
  }

  class Gateway {
    const maxRetries: int
    const baseBackoff: nat
    const policy: Policy
    var slept: nat

    constructor (maxRetries: int, baseBackoff: nat, policy: Policy)
      ensures this.maxRetries == maxRetries && this.baseBackoff == baseBackoff && this.policy == policy && slept == 0
    {
      this.maxRetries, this.baseBackoff, this.policy, slept := maxRetries, baseBackoff, policy, 0;
    }

    /**
      Runs one transaction against a database that raises driver errors on its
      first outages attempts, each of which is rolled back.  Either the
      transaction takes effect once, or it never does; the waits double.
    */
    method MarkSourceFailure(source: SourceRow?, reason: string, now: int, outages: nat)
      returns (committed: bool, failures: nat, quarantined: bool)
      modifies this, source
      ensures committed <==> outages <= maxRetries
      ensures slept == old(slept)
                       + if maxRetries < 0 then 0
                         else baseBackoff * (Pow2(if outages <= maxRetries then outages else maxRetries) - 1)
      ensures committed && source != null ==>
                source.Abstract() == Fail(policy, old(source.Abstract()), now)
                && failures == source.consecutiveFailures
                && (quarantined <==> failures >= policy.threshold)
                && source.quarantineReason == Some(reason)
      ensures !committed && source != null ==> unchanged(source)
      ensures committed && source == null ==> failures == 0 && !quarantined
    {
      committed, failures, quarantined := false, 0, false;
      var attempt := 0;
      while attempt <= maxRetries
        invariant 0 <= attempt <= outages
        invariant if maxRetries < 0 then attempt == 0 else attempt <= maxRetries
        invariant slept == old(slept) + baseBackoff * (Pow2(attempt) - 1)
        invariant source != null ==> unchanged(source)
        decreases maxRetries - attempt
      {
        if attempt >= outages {
          if source == null {
            return true, 0, false;
          }
          var total := source.consecutiveFailures + 1;
          var until := None;
          if total >= policy.threshold {
            until := Some(now + policy.hold);
          }
          source.IncreaseFailure(reason, until);
          return true, source.consecutiveFailures, total >= policy.threshold;
        }
        if attempt >= maxRetries {
          return;
        }
        slept := slept + baseBackoff * Pow2(attempt);
        attempt := attempt + 1;
      }
    }
  }
}
