/**
  The billing service on values: quota consumption and Stripe event handling as
  functions from tables to tables.  The classes of BillingService.dfy carry out
  the same operations in place and are proved against these functions.
*/
module BillingRules {
  import opened Common
  import opened Calendar
  import opened Entitlements

  /** Settings and the plan catalogue. */
  datatype Config = Config(freeLimit: int, proPriceId: Option<string>,
                           plans: set<Plan>, planOfPrice: map<string, Plan>)

  predicate DefaultPlansEnsured(c: Config) {
    Free in c.plans && Pro in c.plans
  }

  /** Seeding one default plan: created, or reset to the price of the settings. */
  function SeedPlan(c: Config, plan: Plan, price: Option<string>): Config {
    var others := map p | p in c.planOfPrice && c.planOfPrice[p] != plan :: c.planOfPrice[p];
    c.(plans := c.plans + {plan}, planOfPrice := if price.Some? then others[price.value := plan] else others)
  }

  /** Every call of the service starts by seeding the two default plans. */
  function Seeded(c: Config): Config {
    SeedPlan(SeedPlan(c, Free, None), Pro, c.proPriceId)
  }

  datatype CounterKey = CounterKey(user: UserId, feature: Feature, windowStart: int)
  datatype Counter = Counter(windowEnd: int, used: int)

  datatype SubscriptionStatus = Trialing | Active | PastDue | Canceled | Expired
  datatype Subscription = Subscription(user: UserId, plan: Plan, status: SubscriptionStatus,
                                       customer: Option<string>, startedAt: int, periodStart: int,
                                       periodEnd: int, cancelAtPeriodEnd: bool, canceledAt: Option<int>)

  /** The event types the service looks for; an empty type is NoKind. */
  datatype EventKind = NoKind | CheckoutCompleted | InvoicePaid | SubscriptionUpdated | SubscriptionDeleted | OtherKind(name: string)
  datatype EventStatus = Received | Processed | Ignored | Failed
  datatype BillingEvent = BillingEvent(kind: EventKind, status: EventStatus, processedAt: Option<int>, errored: bool)

  datatype Tables = Tables(rows: seq<Row>, counters: map<CounterKey, Counter>,
                           subscriptions: map<string, Subscription>, events: map<string, BillingEvent>)

  const EMPTY := Tables([], map[], map[], map[])

  // ---------------------------------------------------------------- quota

  /** The newest active row for a feature. */
  function ActiveEntitlement(rows: seq<Row>, user: UserId, feature: Feature, t: int): (found: Option<Row>)
    ensures found.Some? ==> found.value in rows && ActiveAt(found.value, user, t) && found.value.spec.feature == feature
    ensures found.None? ==> forall r :: r in rows && ActiveAt(r, user, t) ==> r.spec.feature != feature
    ensures found.Some? ==> forall r :: r in rows && ActiveAt(r, user, t) && r.spec.feature == feature
                              ==> r.validFrom <= found.value.validFrom
  {
    if rows == [] then None
    else
      var rest := ActiveEntitlement(rows[1..], user, feature, t);
      if ActiveAt(rows[0], user, t) && rows[0].spec.feature == feature
         && (rest.None? || rows[0].validFrom >= rest.value.validFrom)
      then Some(rows[0]) else rest
  }

  function BaselineApplication(c: Config, st: Tables, user: UserId, now: int): Option<Application> {
    if Grants(st.rows, user, now) == [] && Free in c.plans
    then Some(Application(user, Free, None, now)) else None
  }

  function WithApplication(c: Config, rows: seq<Row>, applied: Option<Application>): seq<Row> {
    if applied.None? then rows else Apply(c.freeLimit, rows, applied.value)
  }

  function EnsureBaseline(c: Config, st: Tables, user: UserId, now: int): Tables {
    st.(rows := WithApplication(c, st.rows, BaselineApplication(c, st, user, now)))
  }

  datatype QuotaDecision = Accepted(priority: bool, limited: bool) | QuotaReached | NoEntitlement

  function QuotaKey(user: UserId, now: int): CounterKey {
    CounterKey(user, Assessments, WindowStart(now))
  }

  function CounterOrNew(counters: map<CounterKey, Counter>, key: CounterKey, windowEnd: int): Counter {
    if key in counters then counters[key] else Counter(windowEnd, 0)
  }

  function ConsumeQuota(c: Config, st: Tables, user: UserId, now: int): (QuotaDecision, Tables) {
    var st1 := EnsureBaseline(c, st, user, now);
    var entitlement := ActiveEntitlement(st1.rows, user, Assessments, now);
    if entitlement.None? then (NoEntitlement, st1)
    else
      var priority := ActiveEntitlement(st1.rows, user, ProcessingPriority, now).Some?;
      if entitlement.value.spec.limit.None? then (Accepted(priority, false), st1)
      else
        var key := QuotaKey(user, now);
        var counter := CounterOrNew(st1.counters, key, WindowEnd(now));
        if counter.used >= entitlement.value.spec.limit.value then (QuotaReached, st1)
        else (Accepted(priority, true), st1.(counters := st1.counters[key := counter.(used := counter.used + 1)]))
  }

  /** The counters shown to a user as current at an instant. */
  function CurrentCounters(counters: map<CounterKey, Counter>, user: UserId, at: int): set<CounterKey> {
    set k | k in counters && k.user == user && k.windowStart <= at < counters[k].windowEnd
  }

  // ------------------------------------------------------- Stripe events

  /** A user id as a payload carries it: missing, unreadable, or an id. */
  datatype UserRef = NoRef | MalformedRef | Ref(user: UserId)

  /** A Unix time stamp of a payload. */
  datatype Stamp = NoStamp | UnreadableStamp | StampAt(at: int)

  /** The provider's status text, trimmed and in lower case. */
  datatype ProviderStatus = IsActive | IsTrialing | IsPastDue | IsUnpaid | IsCanceled | IsCancelled | OtherStatus(text: string)

  datatype SubscriptionObject = SubscriptionObject(
    id: string, status: ProviderStatus, price: Option<string>, owner: UserRef, customer: Option<string>,
    startDate: Stamp, periodStart: Stamp, periodEnd: Stamp, canceledAt: Stamp, cancelAtPeriodEnd: bool)

  /** The data object of an event, read as a session or invoice and as a subscription. */
  datatype DataObject = DataObject(subscription: Option<string>, reference: UserRef, customer: Option<string>,
                                   asSubscription: SubscriptionObject)

  /** retrieved is what the provider answers when asked for the subscription; None is a gateway error. */
  datatype StripeEvent = StripeEvent(id: string, kind: EventKind, data: DataObject, retrieved: Option<SubscriptionObject>)

  datatype Payload = BadSignature | Unparseable | Verified(event: StripeEvent)
  datatype Delivery = Delivery(payload: Payload, now: int)

  datatype Ack = Unauthorized | Unavailable | BadRequest | Replay | Acknowledged | HandlerError

  function StatusOf(raw: ProviderStatus): SubscriptionStatus {
    match raw
    case IsActive => Active
    case IsTrialing => Trialing
    case IsPastDue => PastDue
    case IsUnpaid => PastDue
    case IsCanceled => Canceled
    case IsCancelled => Canceled
    case OtherStatus(_) => Expired
  }

  predicate KeepsPlan(status: SubscriptionStatus) {
    status in {Active, Trialing, PastDue}
  }

  function ResolvePlan(c: Config, price: Option<string>): Option<Plan> {
    if price.None? then (if Pro in c.plans then Some(Pro) else None)
    else if price.value in c.planOfPrice then Some(c.planOfPrice[price.value])
    else if c.proPriceId == price then (if Pro in c.plans then Some(Pro) else None)
    else None
  }

  function ResolveUser(subscriptions: map<string, Subscription>, id: string, hint: UserRef, owner: UserRef): Option<UserId> {
    if id in subscriptions then Some(subscriptions[id].user)
    else
      var raw := if hint.NoRef? then owner else hint;
      if raw.Ref? then Some(raw.user) else None
  }

  predicate Readable(o: SubscriptionObject) {
    !o.startDate.UnreadableStamp? && !o.periodStart.UnreadableStamp?
    && !o.periodEnd.UnreadableStamp? && !o.canceledAt.UnreadableStamp?
  }

  function StampOr(s: Stamp, now: int): int {
    if s.StampAt? then s.at else now
  }

  function SubscriptionRow(o: SubscriptionObject, user: UserId, plan: Plan, now: int): Subscription {
    Subscription(user, plan, StatusOf(o.status), o.customer, StampOr(o.startDate, now), StampOr(o.periodStart, now),
                 StampOr(o.periodEnd, now), o.cancelAtPeriodEnd,
                 if o.canceledAt.StampAt? then Some(o.canceledAt.at) else None)
  }

  /** What handling an event did: whether it raised, and what it had written by then. */
  datatype Effect = Effect(raised: bool, handled: bool, subscriptions: map<string, Subscription>,
                           applied: Option<Application>)

  function Raise(subscriptions: map<string, Subscription>): Effect {
    Effect(true, false, subscriptions, None)
  }

  function SyncSubscription(c: Config, subscriptions: map<string, Subscription>, o: SubscriptionObject,
                            hint: UserRef, now: int): Effect {
    if o.id == "" then Raise(subscriptions)
    else
      var plan := ResolvePlan(c, o.price);
      if plan.None? then Raise(subscriptions)
      else
        var user := ResolveUser(subscriptions, o.id, hint, o.owner);
        if user.None? || !Readable(o) then Raise(subscriptions)
        else
          var stored := subscriptions[o.id := SubscriptionRow(o, user.value, plan.value, now)];
          if KeepsPlan(StatusOf(o.status)) then
            Effect(false, true, stored, Some(Application(user.value, plan.value, Some(o.id), now)))
          else if Free in c.plans then
            Effect(false, true, stored, Some(Application(user.value, Free, Some(o.id), now)))
          else
            Raise(stored)
  }

  function SyncFromProvider(c: Config, subscriptions: map<string, Subscription>, retrieved: Option<SubscriptionObject>,
                            hint: UserRef, customer: Option<string>, now: int): Effect {
    if retrieved.None? then Raise(subscriptions)
    else
      var o := if retrieved.value.customer.None? then retrieved.value.(customer := customer) else retrieved.value;
      SyncSubscription(c, subscriptions, o, hint, now)
  }

  predicate Falsy(s: Option<string>) { s.None? || s.value == "" }

  function HandleEvent(c: Config, subscriptions: map<string, Subscription>, e: StripeEvent, now: int): Effect {
    match e.kind
    case CheckoutCompleted =>
      if Falsy(e.data.subscription) then Effect(false, false, subscriptions, None)
      else SyncFromProvider(c, subscriptions, e.retrieved, e.data.reference, e.data.customer, now)
    case InvoicePaid =>
      if Falsy(e.data.subscription) then Effect(false, false, subscriptions, None)
      else SyncFromProvider(c, subscriptions, e.retrieved, NoRef, None, now)
    case SubscriptionUpdated => SyncSubscription(c, subscriptions, e.data.asSubscription, NoRef, now)
    case SubscriptionDeleted => SyncSubscription(c, subscriptions, e.data.asSubscription, NoRef, now)
    case _ => Effect(false, false, subscriptions, None)
  }

  predicate Settled(events: map<string, BillingEvent>, id: string) {
    id in events && events[id].status in {Processed, Ignored}
  }

  predicate Reaches(st: Tables, d: Delivery) {
    d.payload.Verified? && d.payload.event.id != "" && d.payload.event.kind != NoKind
    && !Settled(st.events, d.payload.event.id)
  }

  function MarkedEvent(st: Tables, e: StripeEvent, fx: Effect, now: int): BillingEvent {
    var kind := if e.id in st.events then st.events[e.id].kind else e.kind;
    if fx.raised then BillingEvent(kind, Failed, Some(now), true)
    else BillingEvent(kind, if fx.handled then Processed else Ignored, Some(now), false)
  }

  /** One webhook call.  Nothing is rolled back when the handler raises: all it wrote is committed. */
  function Deliver(c: Config, st: Tables, d: Delivery): (Ack, Tables) {
    if d.payload.BadSignature? then (Unauthorized, st)
    else if d.payload.Unparseable? then (Unavailable, st)
    else if d.payload.event.id == "" || d.payload.event.kind == NoKind then (BadRequest, st)
    else if Settled(st.events, d.payload.event.id) then (Replay, st)
    else
      var e := d.payload.event;
      var fx := HandleEvent(c, st.subscriptions, e, d.now);
      (if fx.raised then HandlerError else Acknowledged,
       Tables(WithApplication(c, st.rows, fx.applied), st.counters, fx.subscriptions,
              st.events[e.id := MarkedEvent(st, e, fx, d.now)]))
  }

  /** The application a webhook call makes, if any. */
  function DeliveryApplication(c: Config, st: Tables, d: Delivery): Option<Application> {
    if Reaches(st, d) then HandleEvent(c, st.subscriptions, d.payload.event, d.now).applied else None
  }

  // ----------------------------------------------------------------- runs

  datatype Step = Access(user: UserId, at: int) | Consume(user: UserId, at: int) | Webhook(delivery: Delivery)

  function Time(step: Step): int {
    if step.Webhook? then step.delivery.now else step.at
  }

  function Next(c: Config, st: Tables, step: Step): Tables {
    match step
    case Access(user, at) => EnsureBaseline(c, st, user, at)
    case Consume(user, at) => ConsumeQuota(c, st, user, at).1
    case Webhook(d) => Deliver(c, st, d).1
  }

  function Run(c: Config, steps: seq<Step>): Tables {
    if steps == [] then EMPTY else Next(c, Run(c, steps[..|steps| - 1]), steps[|steps| - 1])
  }

  ghost predicate ClockRuns(steps: seq<Step>) {
    forall i, j :: 0 <= i < j < |steps| ==> Time(steps[i]) <= Time(steps[j])
  }
}
