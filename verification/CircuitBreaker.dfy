/** The LLM provider with a fallback and a circuit breaker (apps/roadmaps/llm.py), refining Breaker. */
module CircuitBreaker {
  import opened Common
  import opened Breaker

  class CircuitBreakerState {
    var consecutiveFailures: nat
    var openedUntil: Option<int>

    constructor ()
      ensures Abstract() == HEALTHY
    {
      consecutiveFailures, openedUntil := 0, None;
    }

    function Abstract(): Health reads this {
      Health(consecutiveFailures, openedUntil)
    }

    predicate IsOpen(now: int)
      reads this
      ensures IsOpen(now) <==> Blocked(Abstract(), now)
    {
      openedUntil.Some? && now < openedUntil.value
    }

    /**
      Below the threshold the opening time is left alone; it is then unset, so
      this is the abstract failure step.
    */
    method RecordFailure(p: Policy, now: int)
      requires Consistent(p, Abstract())
      modifies this
      ensures Abstract() == Fail(p, old(Abstract()), now)
      ensures Consistent(p, Abstract())
    {
      consecutiveFailures := consecutiveFailures + 1;
      if consecutiveFailures >= p.threshold {
        openedUntil := Some(now + p.hold);
      }
    }

    method RecordSuccess()
      modifies this
      ensures Abstract() == HEALTHY
    {
      consecutiveFailures, openedUntil := 0, None;
    }
  }

  /** What the primary provider does when called: answer, raise a provider error, or raise anything else. */
  datatype Primary = Answers | ProviderError | OtherError

  datatype Source = FromPrimary | FromFallback | Raised

  function OutcomeOf(primary: Primary): Outcome {
    match primary
    case Answers => Success
    case ProviderError => Failure
    case OtherError => Neither
  }

  /** The calls of a provider object, each judged at its own instant. */
  datatype Call = Call(now: int, primary: Primary)

  /** Whether a call reaches the primary, where its answer comes from, and the circuit after it. */
  function Served(p: Policy, h: Health, call: Call): (bool, Source, Health) {
    if Blocked(h, call.now) then (false, FromFallback, h)
    else match call.primary
      case Answers => (true, FromPrimary, HEALTHY)
      case ProviderError => (true, FromFallback, Fail(p, h, call.now))
      case OtherError => (true, Raised, h)
  }

  class ResilientProvider {
    const primaryName: string
    const fallbackName: string
    const policy: Policy
    const state: CircuitBreakerState
    var providerName: string

    constructor (primaryName: string, fallbackName: string, failureThreshold: int, recoverySeconds: int)
      ensures policy == Policy(Max(1, failureThreshold), Max(1, recoverySeconds))
      ensures this.primaryName == primaryName && this.fallbackName == fallbackName
      ensures fresh(state) && state.Abstract() == HEALTHY
    {
      this.primaryName, this.fallbackName := primaryName, fallbackName;
      policy := Policy(Max(1, failureThreshold), Max(1, recoverySeconds));
      state := new CircuitBreakerState();
      providerName := "resilient";
    }

    /** One call is one attempt of the abstract breaker; the primary is called exactly when the gate is open. */
    method GenerateRoadmap(now: int, primary: Primary) returns (source: Source)
      requires Consistent(policy, state.Abstract())
      modifies this, state
      ensures state.Abstract() == Step(policy, old(state.Abstract()), Attempt(now, now, OutcomeOf(primary)))
      ensures Consistent(policy, state.Abstract())
      ensures (source, state.Abstract())
           == (Served(policy, old(state.Abstract()), Call(now, primary)).1, Served(policy, old(state.Abstract()), Call(now, primary)).2)
      ensures providerName == match source { case FromPrimary => primaryName case FromFallback => fallbackName
                                             case Raised => old(providerName) }
    {
      if state.IsOpen(now) {
        providerName := fallbackName;
        return FromFallback;
      }
      match primary
      case Answers =>
        state.RecordSuccess();
        providerName := primaryName;
        return FromPrimary;
      case ProviderError =>
        state.RecordFailure(policy, now);
        providerName := fallbackName;
        return FromFallback;
      case OtherError =>
        return Raised;
    }
  }

  /** The circuit after a list of calls to one provider object. */
  function AfterCalls(p: Policy, h: Health, calls: seq<Call>): Health
    decreases |calls|
  {
    if calls == [] then h else AfterCalls(p, Served(p, h, calls[0]).2, calls[1..])
  }

  /** The calls of a list that reached the primary and got a provider error from it. */
  function FailedPrimaryCalls(p: Policy, h: Health, calls: seq<Call>): nat
    decreases |calls|
  {
    if calls == [] then 0
    else
      (if Served(p, h, calls[0]).0 && calls[0].primary.ProviderError? then 1 else 0)
      + FailedPrimaryCalls(p, Served(p, h, calls[0]).2, calls[1..])
  }

  function Attempts(calls: seq<Call>): (attempts: seq<Attempt>)
    ensures |attempts| == |calls|
    ensures forall i :: 0 <= i < |calls| ==> attempts[i] == Attempt(calls[i].now, calls[i].now, OutcomeOf(calls[i].primary))
  {
    seq(|calls|, i requires 0 <= i < |calls| => Attempt(calls[i].now, calls[i].now, OutcomeOf(calls[i].primary)))
  }

  /** A list of calls is a run of the abstract breaker, and its failures are the failing calls to the primary. */
  lemma {:induction false} CallsRefineBreaker(p: Policy, h: Health, calls: seq<Call>)
    ensures AfterCalls(p, h, calls) == Run(p, h, Attempts(calls))
    ensures FailedPrimaryCalls(p, h, calls) == Failures(p, h, Attempts(calls))
    decreases |calls|
  {
    if calls != [] {
      assert Attempts(calls)[1..] == Attempts(calls[1..]);
      CallsRefineBreaker(p, Served(p, h, calls[0]).2, calls[1..]);
    }
  }

  /**
    With default settings, three failures and then one every 120 seconds: the calls
    of one provider object that fail on the primary within a span, none answering.
  */
  lemma FailedPrimaryCallsBound(p: Policy, before: Health, calls: seq<Call>, from: int, span: nat)
    requires p.threshold >= 1 && p.hold >= 1 && Consistent(p, before)
    requires forall i, j :: 0 <= i < j < |calls| ==> calls[i].now <= calls[j].now
    requires forall i :: 0 <= i < |calls| ==> from <= calls[i].now <= from + span && calls[i].primary != Answers
    ensures FailedPrimaryCalls(p, before, calls) <= p.threshold + span / p.hold
  {
    CallsRefineBreaker(p, before, calls);
    FailureRateBound(p, before, Attempts(calls), from, span);
  }
}
