/**
  The billing repository and service as they run: tables changed in place inside
  a database session, of which a commit makes the current contents permanent and
  a discarded session keeps the last committed ones.  Every operation is proved
  against the functions of BillingRules.dfy.
*/
module BillingService {
  import opened Common
  import opened Calendar
  import opened Entitlements
  import opened BillingRules

  class BillingRepository {
    var rows: seq<Row>
    var counters: map<CounterKey, Counter>
    var subscriptions: map<string, Subscription>
    var events: map<string, BillingEvent>
    var committed: Tables

    constructor ()
      ensures State() == EMPTY && committed == EMPTY
    {
      rows, counters, subscriptions, events, committed := [], map[], map[], map[], EMPTY;
    }

    function State(): Tables reads this {
      Tables(rows, counters, subscriptions, events)
    }

    method Commit()
      modifies `committed
      ensures committed == State()
    {
      committed := State();
    }

    /** What leaving a session without a commit does. */
    method Discard()
      modifies this
      ensures State() == committed == old(committed)
    {
      rows, counters, subscriptions, events :=
        committed.rows, committed.counters, committed.subscriptions, committed.events;
    }

    method HasActiveEntitlements(user: UserId, at: int) returns (found: bool)
      ensures found <==> Grants(rows, user, at) != []
    {
      NoGrantsWithoutActiveRows(rows, user, at);
      for i := 0 to |rows|
        invariant forall j :: 0 <= j < i ==> !ActiveAt(rows[j], user, at)
      {
        if ActiveAt(rows[i], user, at) {
          return true;
        }
      }
      return false;
    }

    method DeactivateActiveEntitlements(user: UserId, at: int)
      modifies `rows
      ensures rows == Deactivate(old(rows), user, at)
    {
      DeactivateKeepsStarts(rows, user, at);
      for i := 0 to |rows|
        invariant |rows| == |old(rows)|
        invariant forall j :: 0 <= j < i ==> rows[j] == Closed(old(rows)[j], user, at)
        invariant forall j :: i <= j < |rows| ==> rows[j] == old(rows)[j]
      {
        if ActiveAt(rows[i], user, at) {
          rows := rows[i := rows[i].(validTo := Some(at))];
        }
      }
    }

    method CreateEntitlement(row: Row)
      modifies `rows
      ensures rows == old(rows) + [row]
    {
      rows := rows + [row];
    }

    method GetOrCreateUsageCounter(key: CounterKey, windowEnd: int) returns (counter: Counter)
      modifies `counters
      ensures counter == CounterOrNew(old(counters), key, windowEnd)
      ensures counters == old(counters)[key := counter]
    {
      if key in counters {
        counter := counters[key];
        assert counters == counters[key := counter];
      } else {
        counter := Counter(windowEnd, 0);
        counters := counters[key := counter];
      }
    }

    method UpsertSubscription(id: string, value: Subscription)
      modifies `subscriptions
      ensures subscriptions == old(subscriptions)[id := value]
    {
      if id !in subscriptions {
        subscriptions := subscriptions[id := value];
      } else {
        var stored := subscriptions[id].(user := value.user, plan := value.plan, status := value.status,
                                         customer := value.customer);
        stored := stored.(startedAt := value.startedAt, periodStart := value.periodStart, periodEnd := value.periodEnd,
                          cancelAtPeriodEnd := value.cancelAtPeriodEnd, canceledAt := value.canceledAt);
        subscriptions := subscriptions[id := stored];
      }
    }
  }

  class BillingService {
    const repo: BillingRepository
    const config: Config

    constructor (repo: BillingRepository, config: Config)
      ensures this.repo == repo && this.config == config
    {
      this.repo, this.config := repo, config;
    }

    method ApplyPlanEntitlements(a: Application)
      modifies repo`rows
      ensures repo.rows == Apply(config.freeLimit, old(repo.rows), a)
    {
      repo.DeactivateActiveEntitlements(a.user, a.at);
      ghost var closed := repo.rows;
      var specs := SpecsFor(config.freeLimit, a.plan);
      ghost var added := NewRows(a, specs);
      hide NewRows, Deactivate, SpecsFor;
      for i := 0 to |specs|
        invariant repo.rows == closed + added[..i]
      {
        repo.CreateEntitlement(RowFor(a, specs[i]));
        assert added[..i + 1] == added[..i] + [added[i]];
      }
      assert added[..|specs|] == added;
    }

    /** ok is false when the free plan is missing, which the service reports as a server error. */
    method EnsureUserAccessBaseline(user: UserId, now: int) returns (ok: bool)
      requires repo.committed == repo.State()
      modifies repo
      ensures ok <==> (Free in config.plans || Grants(old(repo.rows), user, now) != [])
      ensures repo.State() == EnsureBaseline(config, old(repo.State()), user, now) == repo.committed
    {
      var found := repo.HasActiveEntitlements(user, now);
      if found {
        return true;
      }
      if Free !in config.plans {
        return false;
      }
      ApplyPlanEntitlements(Application(user, Free, None, now));
      repo.Commit();
      return true;
    }

    /** A rejected consumption leaves only the baseline behind: the counter row it may have created is discarded. */
    method ConsumeAssessmentQuota(user: UserId, now: int) returns (decision: QuotaDecision)
      requires DefaultPlansEnsured(config)
      requires repo.committed == repo.State()
      modifies repo
      ensures (decision, repo.State()) == ConsumeQuota(config, old(repo.State()), user, now)
      ensures repo.committed == repo.State()
    {
      hide Apply, Grants;
      var _ := EnsureUserAccessBaseline(user, now);
      ghost var before := repo.State();
      var entitlement := ActiveEntitlement(repo.rows, user, Assessments, now);
      if entitlement.None? {
        return NoEntitlement;
      }
      var limited := entitlement.value.spec.limit.Some?;
      if limited {
        var key := QuotaKey(user, now);
        var counter := repo.GetOrCreateUsageCounter(key, WindowEnd(now));
        if counter.used >= entitlement.value.spec.limit.value {
          repo.Discard();
          return QuotaReached;
        }
        repo.counters := repo.counters[key := counter.(used := counter.used + 1)];
        assert repo.counters == before.counters[key := counter.(used := counter.used + 1)];
      }
      var priority := ActiveEntitlement(repo.rows, user, ProcessingPriority, now);
      repo.Commit();
      decision := Accepted(priority.Some?, limited);
    }

    /** Returns false where the service raises; whatever was written by then stays in the session. */
    method SyncSubscriptionObject(o: SubscriptionObject, hint: UserRef, now: int) returns (ok: bool)
      modifies repo`rows, repo`subscriptions
      ensures var fx := SyncSubscription(config, old(repo.subscriptions), o, hint, now);
              && ok == !fx.raised && (ok ==> fx.handled) && repo.subscriptions == fx.subscriptions
              && repo.rows == WithApplication(config, old(repo.rows), fx.applied)
    {
      if o.id == "" {
        return false;
      }
      var plan := ResolvePlan(config, o.price);
      if plan.None? {
        return false;
      }
      var user := ResolveUser(repo.subscriptions, o.id, hint, o.owner);
      if user.None? || !Readable(o) {
        return false;
      }
      repo.UpsertSubscription(o.id, SubscriptionRow(o, user.value, plan.value, now));
      ok := ApplyEntitlementsForStatus(StatusOf(o.status), user.value, o.id, plan.value, now);
    }

    method ApplyEntitlementsForStatus(status: SubscriptionStatus, user: UserId, subscription: string, plan: Plan, now: int)
      returns (ok: bool)
      modifies repo`rows
      ensures ok <==> KeepsPlan(status) || Free in config.plans
      ensures ok ==> repo.rows == Apply(config.freeLimit, old(repo.rows),
                       Application(user, if KeepsPlan(status) then plan else Free, Some(subscription), now))
      ensures !ok ==> repo.rows == old(repo.rows)
    {
      if KeepsPlan(status) {
        ApplyPlanEntitlements(Application(user, plan, Some(subscription), now));
        return true;
      }
      if Free !in config.plans {
        return false;
      }
      ApplyPlanEntitlements(Application(user, Free, Some(subscription), now));
      return true;
    }

    method SyncSubscriptionFromProvider(retrieved: Option<SubscriptionObject>, hint: UserRef, customer: Option<string>, now: int)
      returns (ok: bool)
      modifies repo`rows, repo`subscriptions
      ensures var fx := SyncFromProvider(config, old(repo.subscriptions), retrieved, hint, customer, now);
              && ok == !fx.raised && (ok ==> fx.handled) && repo.subscriptions == fx.subscriptions
              && repo.rows == WithApplication(config, old(repo.rows), fx.applied)
    {
      if retrieved.None? {
        return false;
      }
      var o := retrieved.value;
      if o.customer.None? {
        o := o.(customer := customer);
      }
      ok := SyncSubscriptionObject(o, hint, now);
    }

    method HandleStripeEvent(e: StripeEvent, now: int) returns (ok: bool, handled: bool)
      modifies repo`rows, repo`subscriptions
      ensures var fx := HandleEvent(config, old(repo.subscriptions), e, now);
              && ok == !fx.raised && (ok ==> handled == fx.handled) && repo.subscriptions == fx.subscriptions
              && repo.rows == WithApplication(config, old(repo.rows), fx.applied)
    {
      hide SyncSubscription, Apply;
      ok, handled := true, true;
      match e.kind
      case CheckoutCompleted =>
        if Falsy(e.data.subscription) {
          handled := false;
        } else {
          ok := SyncSubscriptionFromProvider(e.retrieved, e.data.reference, e.data.customer, now);
        }
      case InvoicePaid =>
        if Falsy(e.data.subscription) {
          handled := false;
        } else {
          ok := SyncSubscriptionFromProvider(e.retrieved, NoRef, None, now);
        }
      case SubscriptionUpdated =>
        ok := SyncSubscriptionObject(e.data.asSubscription, NoRef, now);
      case SubscriptionDeleted =>
        ok := SyncSubscriptionObject(e.data.asSubscription, NoRef, now);
      case _ =>
        handled := false;
    }

    method ProcessStripeWebhook(d: Delivery) returns (ack: Ack)
      requires repo.committed == repo.State()
      modifies repo
      ensures (ack, repo.State()) == Deliver(config, old(repo.State()), d)
      ensures repo.committed == repo.State()
    {
      hide HandleEvent, Apply;
      match d.payload
      case BadSignature => return Unauthorized;
      case Unparseable => return Unavailable;
      case Verified(e) =>
        if e.id == "" || e.kind == NoKind {
          return BadRequest;
        }
        if Settled(repo.events, e.id) {
          return Replay;
        }
        if e.id !in repo.events {
          repo.events := repo.events[e.id := BillingEvent(e.kind, Received, None, false)];
        }
        var ok, handled := HandleStripeEvent(e, d.now);
        var kind := repo.events[e.id].kind;
        if ok {
          repo.events := repo.events[e.id := BillingEvent(kind, if handled then Processed else Ignored, Some(d.now), false)];
          assert repo.events == old(repo.events)[e.id := repo.events[e.id]];
          repo.Commit();
          return Acknowledged;
        }
        repo.events := repo.events[e.id := BillingEvent(kind, Failed, Some(d.now), true)];
        assert repo.events == old(repo.events)[e.id := repo.events[e.id]];
        repo.Commit();
        return HandlerError;
    }
  }
}
