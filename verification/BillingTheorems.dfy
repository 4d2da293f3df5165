/**
  What holds over every run of the billing service: the entitlement table
  refines the log of applied plans, quota is counted exactly and survives plan
  changes, and repeated webhook deliveries are stutter steps.
*/
module BillingTheorems {
  import opened Common
  import opened Calendar
  import opened Entitlements
  import opened BillingRules

  // ------------------------------------------------ the table and the plan log

  function Applied(c: Config, st: Tables, step: Step): seq<Application> {
    var a := match step
      case Access(user, at) => BaselineApplication(c, st, user, at)
      case Consume(user, at) => BaselineApplication(c, st, user, at)
      case Webhook(d) => DeliveryApplication(c, st, d);
    if a.None? then [] else [a.value]
  }

  /** The plans a run put into effect, oldest first. */
  function PlanLog(c: Config, steps: seq<Step>): seq<Application> {
    if steps == [] then []
    else PlanLog(c, steps[..|steps| - 1]) + Applied(c, Run(c, steps[..|steps| - 1]), steps[|steps| - 1])
  }

  /** One step rewrites the rows exactly as the applications it logs say. */
  lemma StepRowsFollowApplied(c: Config, st: Tables, step: Step)
    ensures |Applied(c, st, step)| <= 1
    ensures Applied(c, st, step) == [] ==> Next(c, st, step).rows == st.rows
    ensures Applied(c, st, step) != [] ==>
              Next(c, st, step).rows == Apply(c.freeLimit, st.rows, Applied(c, st, step)[0])
              && Applied(c, st, step)[0].at == Time(step)
  {
    hide HandleEvent, Grants, Apply, ActiveEntitlement;
    match step
    case Access(user, at) =>
    case Consume(user, at) =>
    case Webhook(d) =>
      if Reaches(st, d) {
        HandlerAppliesNow(c, st.subscriptions, d.payload.event, d.now);
      }
  }

  lemma HandlerAppliesNow(c: Config, subscriptions: map<string, Subscription>, e: StripeEvent, now: int)
    ensures var a := HandleEvent(c, subscriptions, e, now).applied; a.Some? ==> a.value.at == now
  {
  }

  lemma TableOfLongerLog(freeLimit: int, log: seq<Application>, a: Application)
    ensures Table(freeLimit, log + [a]) == Apply(freeLimit, Table(freeLimit, log), a)
  {
    assert (log + [a])[..|log|] == log;
  }

  lemma {:induction false} RowsAreTheTableOfTheLog(c: Config, steps: seq<Step>)
    ensures Run(c, steps).rows == Table(c.freeLimit, PlanLog(c, steps))
  {
    if steps != [] {
      var prior, last := steps[..|steps| - 1], steps[|steps| - 1];
      var st := Run(c, prior);
      var log, more := PlanLog(c, prior), Applied(c, st, last);
      RowsAreTheTableOfTheLog(c, prior);
      StepRowsFollowApplied(c, st, last);
      if more == [] {
        assert log + more == log;
      } else {
        assert more == [more[0]];
        TableOfLongerLog(c.freeLimit, log, more[0]);
      }
    }
  }

  lemma AppendChronological(log: seq<Application>, more: seq<Application>, now: int)
    requires Chronological(log) && (forall a :: a in log ==> a.at <= now)
    requires |more| <= 1 && (more != [] ==> more[0].at == now)
    ensures Chronological(log + more) && (forall a :: a in log + more ==> a.at <= now)
  {
  }

  lemma {:induction false} PlanLogIsChronological(c: Config, steps: seq<Step>)
    requires ClockRuns(steps)
    ensures Chronological(PlanLog(c, steps))
    ensures forall a :: a in PlanLog(c, steps) ==> a.at <= Time(steps[|steps| - 1])
  {
    if steps != [] {
      var prior := steps[..|steps| - 1];
      PlanLogIsChronological(c, prior);
      StepRowsFollowApplied(c, Run(c, prior), steps[|steps| - 1]);
      AppendChronological(PlanLog(c, prior), Applied(c, Run(c, prior), steps[|steps| - 1]), Time(steps[|steps| - 1]));
    }
  }

  /**
    At every instant, past ones included, a user's active rows are exactly the
    features of the last plan put into effect for that user by then.
  */
  lemma EntitlementsFollowPlanLog(c: Config, steps: seq<Step>, user: UserId, t: int)
    requires ClockRuns(steps)
    ensures Grants(Run(c, steps).rows, user, t) == GrantsOf(c.freeLimit, Governing(PlanLog(c, steps), user, t))
  {
    RowsAreTheTableOfTheLog(c, steps);
    PlanLogIsChronological(c, steps);
    TableRefinesLog(c.freeLimit, PlanLog(c, steps), user, t);
  }

  lemma {:induction false} PlanLogGrows(c: Config, steps: seq<Step>, more: seq<Step>)
    ensures PlanLog(c, steps) <= PlanLog(c, steps + more)
  {
    if more == [] {
      assert steps + more == steps;
    } else {
      var prior := more[..|more| - 1];
      PlanLogGrows(c, steps, prior);
      assert (steps + more)[..|steps + more| - 1] == steps + prior;
    }
  }

  /** The baseline has effect at most once per user: after it, every later access changes nothing. */
  lemma BaselineTakesEffectOnce(c: Config, steps: seq<Step>, user: UserId, first: int, more: seq<Step>, again: int)
    requires DefaultPlansEnsured(c)
    requires ClockRuns(steps + [Access(user, first)] + more + [Access(user, again)])
    ensures Next(c, Run(c, steps + [Access(user, first)] + more), Access(user, again))
         == Run(c, steps + [Access(user, first)] + more)
  {
    hide Apply, Grants, Governing, PlanLog, Table;
    var accessed := steps + [Access(user, first)];
    var all := accessed + more;
    assert accessed[..|steps|] == steps;
    var whole := all + [Access(user, again)];
    assert whole[|steps|] == Access(user, first) && whole[|whole| - 1] == Access(user, again);
    assert ClockRuns(accessed) by { assert forall i :: 0 <= i < |accessed| ==> accessed[i] == whole[i]; }
    assert ClockRuns(all) by { assert forall i :: 0 <= i < |all| ==> all[i] == whole[i]; }
    EntitlementsFollowPlanLog(c, accessed, user, first);
    AccessLeavesGrants(c, steps, user, first);
    var log := PlanLog(c, accessed);
    GoverningIsListed(log, user, first);
    PlanLogGrows(c, accessed, more);
    var k :| 0 <= k < |log| && log[k].user == user && log[k].at <= first;
    assert PlanLog(c, all)[k] == log[k];
    PlanLogIsChronological(c, all);
    NeverWithoutGrants(c.freeLimit, PlanLog(c, all), user, again, k);
    RowsAreTheTableOfTheLog(c, all);
  }

  lemma AccessLeavesGrants(c: Config, steps: seq<Step>, user: UserId, at: int)
    requires DefaultPlansEnsured(c)
    ensures Grants(Run(c, steps + [Access(user, at)]).rows, user, at) != []
  {
    assert (steps + [Access(user, at)])[..|steps|] == steps;
    BaselineLeavesGrants(c, Run(c, steps), user, at);
  }

  lemma BaselineLeavesGrants(c: Config, st: Tables, user: UserId, at: int)
    requires DefaultPlansEnsured(c)
    ensures Grants(EnsureBaseline(c, st, user, at).rows, user, at) != []
  {
    if Grants(st.rows, user, at) == [] {
      var a := Application(user, Free, None, at);
      var specs := SpecsFor(c.freeLimit, Free);
      GrantsAppend(Deactivate(st.rows, user, at), NewRows(a, specs), user, at);
      GrantsOfNewRows(a, specs, user, at);
    }
  }

  lemma {:induction false} GoverningIsListed(log: seq<Application>, user: UserId, t: int)
    requires Governing(log, user, t).Some?
    ensures exists k :: 0 <= k < |log| && log[k] == Governing(log, user, t).value && log[k].user == user && log[k].at <= t
  {
    var last := log[|log| - 1];
    if !(last.user == user && last.at <= t) {
      GoverningIsListed(log[..|log| - 1], user, t);
      var k :| 0 <= k < |log| - 1 && log[..|log| - 1][k] == Governing(log, user, t).value;
      assert log[k] == Governing(log, user, t).value;
    }
  }

  // -------------------------------------------------------------------- quota

  predicate LimitedAcceptance(c: Config, st: Tables, step: Step, user: UserId, windowStart: int) {
    step.Consume? && step.user == user && WindowStart(step.at) == windowStart
    && var decision := ConsumeQuota(c, st, user, step.at).0; decision.Accepted? && decision.limited
  }

  /** How often a run accepted a limited assessment of a user in a month. */
  function LimitedAcceptances(c: Config, steps: seq<Step>, user: UserId, windowStart: int): nat {
    if steps == [] then 0
    else
      var prior := steps[..|steps| - 1];
      LimitedAcceptances(c, prior, user, windowStart)
      + (if LimitedAcceptance(c, Run(c, prior), steps[|steps| - 1], user, windowStart) then 1 else 0)
  }

  function Used(counters: map<CounterKey, Counter>, user: UserId, windowStart: int): int {
    var key := CounterKey(user, Assessments, windowStart);
    if key in counters then counters[key].used else 0
  }

  ghost predicate CountersWellFormed(counters: map<CounterKey, Counter>) {
    forall k :: k in counters ==>
      k.feature == Assessments && WindowStart(k.windowStart) == k.windowStart && counters[k].windowEnd == WindowEnd(k.windowStart)
  }

  ghost predicate LimitsAreTheFreeLimit(c: Config, rows: seq<Row>) {
    forall r :: r in rows ==> r.spec.limit in {None, Some(c.freeLimit)}
  }

  lemma {:induction false} TableLimits(c: Config, log: seq<Application>)
    ensures LimitsAreTheFreeLimit(c, Table(c.freeLimit, log))
  {
    if log != [] {
      var prior, last := log[..|log| - 1], log[|log| - 1];
      TableLimits(c, prior);
      var before := Table(c.freeLimit, prior);
      ApplyKeepsLimits(c, before, last);
    }
  }

  lemma ApplyKeepsLimits(c: Config, rows: seq<Row>, a: Application)
    requires LimitsAreTheFreeLimit(c, rows)
    ensures LimitsAreTheFreeLimit(c, Apply(c.freeLimit, rows, a))
  {
    DeactivateKeepsStarts(rows, a.user, a.at);
    forall r | r in Apply(c.freeLimit, rows, a)
      ensures r.spec.limit in {None, Some(c.freeLimit)}
    {
      var closed := Deactivate(rows, a.user, a.at);
      if r in closed {
        var i :| 0 <= i < |closed| && r == closed[i];
        assert rows[i] in rows;
      }
    }
  }

  lemma WindowOfWindowStart(t: int)
    ensures WindowStart(WindowStart(t)) == WindowStart(t) && WindowEnd(WindowStart(t)) == WindowEnd(t)
  {
    WindowsTile(t, WindowStart(t));
  }

  lemma ActiveLimit(c: Config, rows: seq<Row>, user: UserId, feature: Feature, t: int)
    requires LimitsAreTheFreeLimit(c, rows)
    ensures var found := ActiveEntitlement(rows, user, feature, t);
            found.Some? ==> found.value.spec.limit in {None, Some(c.freeLimit)}
  {
  }

  /** Counting one acceptance at an instant moves only the counter of that user and month. */
  lemma CountOne(counters: map<CounterKey, Counter>, who: UserId, at: int, user: UserId, windowStart: int)
    requires CountersWellFormed(counters)
    ensures var key := QuotaKey(who, at);
            var counter := CounterOrNew(counters, key, WindowEnd(at));
            var after := counters[key := counter.(used := counter.used + 1)];
            CountersWellFormed(after)
            && Used(after, user, windowStart)
               == Used(counters, user, windowStart) + (if who == user && WindowStart(at) == windowStart then 1 else 0)
            && Used(counters, who, WindowStart(at)) == counter.used
  {
    WindowOfWindowStart(at);
    hide WindowStart, WindowEnd;
  }

  lemma BaselineKeepsLimits(c: Config, st: Tables, who: UserId, at: int)
    requires LimitsAreTheFreeLimit(c, st.rows)
    ensures var after := EnsureBaseline(c, st, who, at); LimitsAreTheFreeLimit(c, after.rows) && after.counters == st.counters
  {
    var a := BaselineApplication(c, st, who, at);
    if a.Some? {
      ApplyKeepsLimits(c, st.rows, a.value);
    }
    hide Apply, LimitsAreTheFreeLimit, BaselineApplication;
  }

  /** What a consumption does to the counters, by its decision. */
  lemma ConsumeMovesOneCounter(c: Config, st: Tables, who: UserId, at: int)
    requires LimitsAreTheFreeLimit(c, st.rows)
    ensures var (decision, after) := ConsumeQuota(c, st, who, at);
            var key := QuotaKey(who, at);
            var counter := CounterOrNew(st.counters, key, WindowEnd(at));
            if decision.Accepted? && decision.limited
            then counter.used < c.freeLimit && after.counters == st.counters[key := counter.(used := counter.used + 1)]
            else after.counters == st.counters
  {
    BaselineKeepsLimits(c, st, who, at);
    ActiveLimit(c, EnsureBaseline(c, st, who, at).rows, who, Assessments, at);
    hide EnsureBaseline, ActiveEntitlement, LimitsAreTheFreeLimit, WindowEnd, CounterOrNew, QuotaKey;
  }

  /** A consumption adds its acceptance to exactly one counter, and only below the limit. */
  lemma ConsumeCounts(c: Config, st: Tables, who: UserId, at: int, user: UserId, windowStart: int)
    requires LimitsAreTheFreeLimit(c, st.rows) && CountersWellFormed(st.counters)
    ensures var after := ConsumeQuota(c, st, who, at).1.counters;
            var counted := LimitedAcceptance(c, st, Consume(who, at), user, windowStart);
            CountersWellFormed(after)
            && Used(after, user, windowStart) == Used(st.counters, user, windowStart) + (if counted then 1 else 0)
            && (counted ==> Used(st.counters, user, windowStart) < c.freeLimit)
  {
    CountOne(st.counters, who, at, user, windowStart);
    ConsumeMovesOneCounter(c, st, who, at);
    hide ConsumeQuota, LimitsAreTheFreeLimit, WindowStart, WindowEnd, CountersWellFormed, Used, CounterOrNew, QuotaKey;
  }

  lemma StepCountsAcceptance(c: Config, st: Tables, step: Step, user: UserId, windowStart: int)
    requires LimitsAreTheFreeLimit(c, st.rows) && CountersWellFormed(st.counters)
    ensures CountersWellFormed(Next(c, st, step).counters)
    ensures Used(Next(c, st, step).counters, user, windowStart)
         == Used(st.counters, user, windowStart) + (if LimitedAcceptance(c, st, step, user, windowStart) then 1 else 0)
    ensures LimitedAcceptance(c, st, step, user, windowStart) ==> Used(st.counters, user, windowStart) < c.freeLimit
  {
    hide ConsumeQuota, WithApplication, HandleEvent, Used, CountersWellFormed;
    if step.Consume? {
      ConsumeCounts(c, st, step.user, step.at, user, windowStart);
    }
  }

  /**
    Whatever plan changes a run contains, each monthly counter is the number of
    limited assessments accepted in that month, and it never passes the free limit.
  */
  lemma {:induction false} CountersCountAcceptances(c: Config, steps: seq<Step>, user: UserId, windowStart: int)
    ensures Used(Run(c, steps).counters, user, windowStart) == LimitedAcceptances(c, steps, user, windowStart)
    ensures LimitedAcceptances(c, steps, user, windowStart) <= Max(0, c.freeLimit)
    ensures CountersWellFormed(Run(c, steps).counters)
  {
    if steps != [] {
      var prior, last := steps[..|steps| - 1], steps[|steps| - 1];
      CountersCountAcceptances(c, prior, user, windowStart);
      RowsAreTheTableOfTheLog(c, prior);
      TableLimits(c, PlanLog(c, prior));
      StepCountsAcceptance(c, Run(c, prior), last, user, windowStart);
    }
  }

  /** The only counter shown as current is the one a consumption at that instant would use. */
  lemma CurrentCounterIsTheOneConsumed(c: Config, steps: seq<Step>, user: UserId, at: int)
    ensures CurrentCounters(Run(c, steps).counters, user, at)
         == if QuotaKey(user, at) in Run(c, steps).counters then {QuotaKey(user, at)} else {}
  {
    var counters := Run(c, steps).counters;
    CountersCountAcceptances(c, steps, user, 0);
    forall k | k in counters
      ensures k in CurrentCounters(counters, user, at) <==> k == QuotaKey(user, at)
    {
      WindowsTile(k.windowStart, at);
      WindowsTile(at, at);
    }
  }

  lemma LookupReadsGrants(rows: seq<Row>, user: UserId, feature: Feature, t: int)
    ensures var found := ActiveEntitlement(rows, user, feature, t);
            && (found.Some? ==> found.value.spec.feature == feature
                                && exists g :: g in Grants(rows, user, t) && g.spec == found.value.spec)
            && (found.None? ==> forall g :: g in Grants(rows, user, t) ==> g.spec.feature != feature)
  {
    var found := ActiveEntitlement(rows, user, feature, t);
    hide ActiveAt, Grants;
    GrantsMembers(rows, user, t);
    if found.Some? {
      var k :| 0 <= k < |rows| && rows[k] == found.value;
      assert rows[k].(validTo := None) in Grants(rows, user, t);
    } else {
      forall g | g in Grants(rows, user, t)
        ensures g.spec.feature != feature
      {
        var k :| 0 <= k < |rows| && ActiveAt(rows[k], user, t) && g == rows[k].(validTo := None);
        assert rows[k] in rows;
      }
    }
  }

  /** A query for a feature finds a row exactly when the user's plan has the feature, with the plan's limit. */
  lemma FeatureLookup(c: Config, rows: seq<Row>, governing: Application, user: UserId, feature: Feature, t: int)
    requires Grants(rows, user, t) == GrantsOf(c.freeLimit, Some(governing))
    ensures var found := ActiveEntitlement(rows, user, feature, t);
            var specs := SpecsFor(c.freeLimit, governing.plan);
            && (found.Some? ==> found.value.spec in specs)
            && (forall i :: 0 <= i < |specs| && specs[i].feature == feature ==> found.Some? && found.value.spec == specs[i])
  {
    var found := ActiveEntitlement(rows, user, feature, t);
    var specs := SpecsFor(c.freeLimit, governing.plan);
    LookupReadsGrants(rows, user, feature, t);
    hide ActiveEntitlement, SpecsFor, Grants;
    NewRowsSpecs(governing, specs);
    if found.Some? {
      var g :| g in Grants(rows, user, t) && g.spec == found.value.spec;
      var j :| 0 <= j < |specs| && NewRows(governing, specs)[j] == g;
      assert specs[j] == found.value.spec;
    }
    forall i | 0 <= i < |specs| && specs[i].feature == feature
      ensures found.Some? && found.value.spec == specs[i]
    {
      assert NewRows(governing, specs)[i] in Grants(rows, user, t);
    }
  }

  lemma NewRowsSpecs(a: Application, specs: seq<Spec>)
    ensures |NewRows(a, specs)| == |specs| && forall i :: 0 <= i < |specs| ==> NewRows(a, specs)[i].spec == specs[i]
  {
  }

  /** The plan that decides a consumption: the last one applied by then, or the free one for a first access. */
  function DecidingPlan(c: Config, steps: seq<Step>, user: UserId, at: int): Plan {
    var g := Governing(PlanLog(c, steps), user, at);
    if g.Some? then g.value.plan else Free
  }

  /**
    The whole decision table of quota consumption, in terms of the run only: a Pro
    user is always accepted, with priority; anyone else is accepted exactly while
    the month holds fewer limited acceptances than the free limit.
  */
  lemma ConsumeDecision(c: Config, steps: seq<Step>, user: UserId, at: int)
    requires DefaultPlansEnsured(c)
    requires ClockRuns(steps + [Consume(user, at)])
    ensures ConsumeQuota(c, Run(c, steps), user, at).0
         == if DecidingPlan(c, steps, user, at) == Pro then Accepted(true, false)
            else if LimitedAcceptances(c, steps, user, WindowStart(at)) < c.freeLimit then Accepted(false, true)
            else QuotaReached
  {
    var st := Run(c, steps);
    var whole := steps + [Consume(user, at)];
    assert ClockRuns(steps) by { assert forall i :: 0 <= i < |steps| ==> steps[i] == whole[i]; }
    PlanLogIsChronological(c, steps);
    CountersCountAcceptances(c, steps, user, WindowStart(at));
    RowsAreTheTableOfTheLog(c, steps);
    PlanLogEndsBefore(c, steps, whole, at);
    DecisionFromLog(c, st, PlanLog(c, steps), user, at);
  }

  lemma PlanLogEndsBefore(c: Config, steps: seq<Step>, whole: seq<Step>, at: int)
    requires |whole| == |steps| + 1 && steps == whole[..|steps|] && Time(whole[|steps|]) == at && ClockRuns(whole)
    ensures forall a :: a in PlanLog(c, steps) ==> a.at <= at
  {
    assert ClockRuns(steps) by { assert forall i :: 0 <= i < |steps| ==> steps[i] == whole[i]; }
    PlanLogIsChronological(c, steps);
    if steps != [] {
      assert Time(whole[|steps| - 1]) <= Time(whole[|steps|]);
    }
  }

  lemma DecisionFromLog(c: Config, st: Tables, log: seq<Application>, user: UserId, at: int)
    requires DefaultPlansEnsured(c)
    requires Chronological(log) && (forall a :: a in log ==> a.at <= at) && st.rows == Table(c.freeLimit, log)
    ensures ConsumeQuota(c, st, user, at).0
         == if Governing(log, user, at).Some? && Governing(log, user, at).value.plan == Pro then Accepted(true, false)
            else if Used(st.counters, user, WindowStart(at)) < c.freeLimit then Accepted(false, true)
            else QuotaReached
  {
    var g := Governing(log, user, at);
    var governing := if g.Some? then g.value else Application(user, Free, None, at);
    TableRefinesLog(c.freeLimit, log, user, at);
    if g.None? {
      var more := [governing];
      TableOfLongerLog(c.freeLimit, log, governing);
      AppendChronological(log, more, at);
      TableRefinesLog(c.freeLimit, log + more, user, at);
      assert (log + more)[|log|] == governing;
    }
    DecisionFromGrants(c, st, governing, user, at);
  }

  lemma DecisionFromGrants(c: Config, st: Tables, governing: Application, user: UserId, at: int)
    requires Grants(EnsureBaseline(c, st, user, at).rows, user, at) == GrantsOf(c.freeLimit, Some(governing))
    ensures ConsumeQuota(c, st, user, at).0
         == if governing.plan == Pro then Accepted(true, false)
            else if Used(st.counters, user, WindowStart(at)) < c.freeLimit then Accepted(false, true)
            else QuotaReached
  {
    hide Grants, GrantsOf, Apply;
    var rows := EnsureBaseline(c, st, user, at).rows;
    FeatureLookup(c, rows, governing, user, Assessments, at);
    FeatureLookup(c, rows, governing, user, ProcessingPriority, at);
    var specs := SpecsFor(c.freeLimit, governing.plan);
    assert specs[0].feature == Assessments;
    if governing.plan == Pro {
      assert specs[4].feature == ProcessingPriority;
    }
  }

  // --------------------------------------------------------------- deliveries

  /** Which step of a webhook-only run handled its event for good. */
  function Settles(c: Config, st: Tables, d: Delivery): bool {
    Reaches(st, d) && !HandleEvent(c, st.subscriptions, d.payload.event, d.now).raised
  }

  function DeliverAll(c: Config, st: Tables, ds: seq<Delivery>): Tables
    decreases |ds|
  {
    if ds == [] then st else DeliverAll(c, Deliver(c, st, ds[0]).1, ds[1..])
  }

  predicate OfEvent(d: Delivery, id: string) {
    d.payload.Verified? && d.payload.event.id == id && id != "" && d.payload.event.kind != NoKind
  }

  /** ds without every delivery that follows a settling one of the same event. */
  function WithoutReplays(c: Config, st: Tables, ds: seq<Delivery>, settled: set<string>): (kept: seq<Delivery>)
    ensures |kept| <= |ds|
    decreases |ds|
  {
    if ds == [] then []
    else
      var d := ds[0];
      var st' := Deliver(c, st, d).1;
      if d.payload.Verified? && OfEvent(d, d.payload.event.id) && d.payload.event.id in settled then
        WithoutReplays(c, st', ds[1..], settled)
      else
        [d] + WithoutReplays(c, st', ds[1..], if Settles(c, st, d) then settled + {d.payload.event.id} else settled)
  }

  ghost predicate SettledSet(events: map<string, BillingEvent>, settled: set<string>) {
    forall id :: id in settled <==> Settled(events, id)
  }

  /** Removing every replay from any list of deliveries leads to the same tables. */
  lemma {:induction false} ReplaysAreStutterSteps(c: Config, st: Tables, ds: seq<Delivery>, settled: set<string>)
    requires SettledSet(st.events, settled)
    ensures DeliverAll(c, st, WithoutReplays(c, st, ds, settled)) == DeliverAll(c, st, ds)
    decreases |ds|
  {
    if ds != [] {
      var d := ds[0];
      var st' := Deliver(c, st, d).1;
      if d.payload.Verified? && OfEvent(d, d.payload.event.id) && d.payload.event.id in settled {
        assert st' == st;
        ReplaysAreStutterSteps(c, st', ds[1..], settled);
      } else {
        var settled' := if Settles(c, st, d) then settled + {d.payload.event.id} else settled;
        ReplaysAreStutterSteps(c, st', ds[1..], settled');
        var kept := WithoutReplays(c, st, ds, settled);
        assert kept[0] == d && kept[1..] == WithoutReplays(c, st', ds[1..], settled');
      }
    }
  }

  /** Whether a sync can get past storing a subscription only to find no free plan to fall back to. */
  predicate CanFallBack(c: Config) {
    Free in c.plans || (Pro !in c.plans && c.planOfPrice == map[])
  }

  /** A failed delivery changes nothing but its own event row. */
  lemma FailedDeliveryTouchesOnlyItsEvent(c: Config, st: Tables, d: Delivery)
    requires CanFallBack(c)
    requires Reaches(st, d) && !Settles(c, st, d)
    ensures SameBilling(Deliver(c, st, d).1, st)
  {
    FailedSyncWritesNothing(c, st, d);
    hide HandleEvent, Apply, CanFallBack;
  }

  lemma FailedSyncWritesNothing(c: Config, st: Tables, d: Delivery)
    requires CanFallBack(c) && d.payload.Verified?
    ensures var fx := HandleEvent(c, st.subscriptions, d.payload.event, d.now);
            fx.raised ==> fx.subscriptions == st.subscriptions && fx.applied.None?
  {
    hide ResolveUser, Readable, StampOr, KeepsPlan;
  }

  /** Seeding ensures the default plans, and changes nothing the second time: one catalogue serves a whole run. */
  lemma SeedingIsIdempotent(c: Config)
    ensures DefaultPlansEnsured(Seeded(c)) && Seeded(Seeded(c)) == Seeded(c)
  {
    var first, second := Seeded(c), Seeded(Seeded(c));
    assert second.plans == first.plans;
    assert second.planOfPrice == first.planOfPrice;
  }

  /** Since a webhook call seeds the default plans before anything else, a failed delivery always leaves no trace. */
  lemma FailedDeliveryLeavesNoTrace(c: Config, st: Tables, d: Delivery)
    requires Reaches(st, d) && !Settles(Seeded(c), st, d)
    ensures SameBilling(Deliver(Seeded(c), st, d).1, st)
  {
    SeedingIsIdempotent(c);
    hide Deliver, Settles, Seeded, Reaches;
    FailedDeliveryTouchesOnlyItsEvent(Seeded(c), st, d);
  }

  /**
    Without the seeding, that is so for every table and delivery exactly with a catalogue that can fall back.
    Otherwise a cancellation is recorded on its subscription although its delivery failed, and the plan stays active.
  */
  lemma FailuresLeaveNoTraceExactly(c: Config)
    ensures CanFallBack(c) <==>
            forall st, d :: Reaches(st, d) && !Settles(c, st, d) ==> SameBilling(Deliver(c, st, d).1, st)
  {
    if CanFallBack(c) {
      forall st, d | Reaches(st, d) && !Settles(c, st, d)
        ensures SameBilling(Deliver(c, st, d).1, st)
      {
        FailedDeliveryTouchesOnlyItsEvent(c, st, d);
      }
    } else {
      var d := LeakingDelivery(c);
      assert Reaches(EMPTY, d) && !Settles(c, EMPTY, d) && !SameBilling(Deliver(c, EMPTY, d).1, EMPTY);
    }
  }

  lemma LeakingDelivery(c: Config) returns (d: Delivery)
    requires !CanFallBack(c)
    ensures Reaches(EMPTY, d) && !Settles(c, EMPTY, d) && !SameBilling(Deliver(c, EMPTY, d).1, EMPTY)
  {
    hide Apply;
    var price: Option<string> := None;
    if Pro !in c.plans {
      var p :| p in c.planOfPrice;
      price := Some(p);
    }
    var id := ['s'];
    var o := SubscriptionObject(id, IsCanceled, price, Ref(7), None, NoStamp, NoStamp, NoStamp, NoStamp, false);
    var e := StripeEvent(id, SubscriptionDeleted, DataObject(None, NoRef, None, o), None);
    d := Delivery(Verified(e), 10);
    assert id in Deliver(c, EMPTY, d).1.subscriptions;
  }

  /** The deliveries of a list that handled their event for good. */
  function Settling(c: Config, st: Tables, ds: seq<Delivery>): seq<Delivery>
    decreases |ds|
  {
    if ds == [] then []
    else
      (if Settles(c, st, ds[0]) then [ds[0]] else []) + Settling(c, Deliver(c, st, ds[0]).1, ds[1..])
  }

  /** Two states that only differ in how unsettled events are recorded. */
  ghost predicate SameBilling(a: Tables, b: Tables) {
    a.rows == b.rows && a.counters == b.counters && a.subscriptions == b.subscriptions
    && forall id :: Settled(a.events, id) <==> Settled(b.events, id)
  }

  lemma SettlingStepAgrees(c: Config, a: Tables, b: Tables, d: Delivery)
    requires SameBilling(a, b) && Settles(c, a, d)
    ensures Settles(c, b, d) && SameBilling(Deliver(c, a, d).1, Deliver(c, b, d).1)
  {
    hide HandleEvent, Apply;
    assert !Settled(b.events, d.payload.event.id);
    var afterA, afterB := Deliver(c, a, d).1, Deliver(c, b, d).1;
    forall id
      ensures Settled(afterA.events, id) <==> Settled(afterB.events, id)
    {
      assert Settled(a.events, id) <==> Settled(b.events, id);
    }
  }

  lemma UnsettledStepIsInvisible(c: Config, st: Tables, d: Delivery)
    requires DefaultPlansEnsured(c) && !Settles(c, st, d)
    ensures SameBilling(Deliver(c, st, d).1, st)
  {
    if Reaches(st, d) {
      FailedDeliveryTouchesOnlyItsEvent(c, st, d);
    }
  }

  /**
    Replays and failures alike leave no trace: entitlements, subscriptions and
    counters end as if only the deliveries that settled an event had been made.
  */
  lemma {:induction false} OnlySettlingDeliveriesMatter(c: Config, st: Tables, other: Tables, ds: seq<Delivery>)
    requires DefaultPlansEnsured(c) && SameBilling(st, other)
    ensures SameBilling(DeliverAll(c, st, ds), DeliverAll(c, other, Settling(c, st, ds)))
    decreases |ds|
  {
    hide Deliver, Settles;
    if ds != [] {
      var d, st' := ds[0], Deliver(c, st, ds[0]).1;
      if Settles(c, st, d) {
        SettlingStepAgrees(c, st, other, d);
        OnlySettlingDeliveriesMatter(c, st', Deliver(c, other, d).1, ds[1..]);
        assert Settling(c, st, ds)[0] == d && Settling(c, st, ds)[1..] == Settling(c, st', ds[1..]);
      } else {
        UnsettledStepIsInvisible(c, st, d);
        OnlySettlingDeliveriesMatter(c, st', other, ds[1..]);
        assert Settling(c, st, ds) == Settling(c, st', ds[1..]);
      }
    }
  }

  /** No event settles twice, nor does one that had settled before. */
  lemma {:induction false} EventsSettleOnce(c: Config, st: Tables, ds: seq<Delivery>)
    ensures forall d :: d in Settling(c, st, ds) ==> d.payload.Verified? && !Settled(st.events, d.payload.event.id)
    ensures forall i, j :: 0 <= i < j < |Settling(c, st, ds)| ==>
              Settling(c, st, ds)[i].payload.event.id != Settling(c, st, ds)[j].payload.event.id
    decreases |ds|
  {
    hide HandleEvent, Apply;
    if ds != [] {
      EventsSettleOnce(c, Deliver(c, st, ds[0]).1, ds[1..]);
    }
  }

  lemma SyncKeepsOwner(c: Config, subscriptions: map<string, Subscription>, o: SubscriptionObject, hint: UserRef,
                       now: int, id: string)
    requires id in subscriptions
    ensures var after := SyncSubscription(c, subscriptions, o, hint, now).subscriptions;
            id in after && after[id].user == subscriptions[id].user
  {
    hide ResolvePlan, Readable, StampOr, KeepsPlan;
  }

  lemma HandlerKeepsOwner(c: Config, subscriptions: map<string, Subscription>, e: StripeEvent, now: int, id: string)
    requires id in subscriptions
    ensures var after := HandleEvent(c, subscriptions, e, now).subscriptions;
            id in after && after[id].user == subscriptions[id].user
  {
    hide SyncSubscription;
    SyncKeepsOwner(c, subscriptions, e.data.asSubscription, NoRef, now, id);
    if e.retrieved.Some? {
      SyncKeepsOwner(c, subscriptions, Retrieved(e.retrieved.value, e.data.customer), e.data.reference, now, id);
      SyncKeepsOwner(c, subscriptions, Retrieved(e.retrieved.value, None), NoRef, now, id);
    }
  }

  lemma StepKeepsOwner(c: Config, st: Tables, step: Step, id: string)
    requires id in st.subscriptions
    ensures id in Next(c, st, step).subscriptions && Next(c, st, step).subscriptions[id].user == st.subscriptions[id].user
  {
    match step
    case Access(user, at) =>
    case Consume(user, at) =>
    case Webhook(d) =>
      if Reaches(st, d) {
        HandlerKeepsOwner(c, st.subscriptions, d.payload.event, d.now, id);
      }
  }

  /** A subscription keeps its owner through every later run. */
  lemma {:induction false} OwnersNeverChange(c: Config, steps: seq<Step>, more: seq<Step>, id: string)
    requires id in Run(c, steps).subscriptions
    ensures id in Run(c, steps + more).subscriptions
    ensures Run(c, steps + more).subscriptions[id].user == Run(c, steps).subscriptions[id].user
  {
    hide Next;
    if more == [] {
      assert steps + more == steps;
    } else {
      var prior := more[..|more| - 1];
      OwnersNeverChange(c, steps, prior, id);
      assert (steps + more)[..|steps + more| - 1] == steps + prior;
      StepKeepsOwner(c, Run(c, steps + prior), more[|more| - 1], id);
    }
  }

  /**
    After a sync that keeps its plan, the owner of the subscription holds exactly
    that plan; after a cancellation, exactly the free plan.
  */
  lemma SyncDecidesThePlan(c: Config, steps: seq<Step>, d: Delivery)
    requires ClockRuns(steps + [Webhook(d)])
    requires DeliveryApplication(c, Run(c, steps), d).Some?
    ensures var a := DeliveryApplication(c, Run(c, steps), d).value;
            && Grants(Run(c, steps + [Webhook(d)]).rows, a.user, d.now) == NewRows(a, SpecsFor(c.freeLimit, a.plan))
            && Stores(a, Run(c, steps + [Webhook(d)]).subscriptions)
  {
    var whole, st := steps + [Webhook(d)], Run(c, steps);
    var a := DeliveryApplication(c, st, d).value;
    assert whole[..|steps|] == steps && whole[|whole| - 1] == Webhook(d);
    EntitlementsFollowPlanLog(c, whole, a.user, d.now);
    SyncStoresWhatItApplies(c, st, d);
    assert PlanLog(c, whole) == PlanLog(c, steps) + [a];
  }

  lemma SyncStoresWhatItApplies(c: Config, st: Tables, d: Delivery)
    requires DeliveryApplication(c, st, d).Some?
    ensures var a, stored := DeliveryApplication(c, st, d).value, Deliver(c, st, d).1.subscriptions;
            a.at == d.now && Stores(a, stored)
  {
    hide Apply, SyncSubscription, KeepsPlan, Stores;
    var e := d.payload.event;
    match e.kind {
      case CheckoutCompleted =>
        SyncStores(c, st.subscriptions, Retrieved(e.retrieved.value, e.data.customer), e.data.reference, d.now);
      case InvoicePaid =>
        SyncStores(c, st.subscriptions, Retrieved(e.retrieved.value, None), NoRef, d.now);
      case _ =>
        SyncStores(c, st.subscriptions, e.data.asSubscription, NoRef, d.now);
    }
  }

  function Retrieved(o: SubscriptionObject, customer: Option<string>): SubscriptionObject {
    if o.customer.None? then o.(customer := customer) else o
  }

  /** The subscription an application names is stored, for the same user and with the plan that was applied. */
  ghost predicate Stores(a: Application, stored: map<string, Subscription>) {
    a.subscription.Some? && a.subscription.value in stored
    && var s := stored[a.subscription.value];
       s.user == a.user && a.plan == (if KeepsPlan(s.status) then s.plan else Free)
  }

  lemma SyncStores(c: Config, subscriptions: map<string, Subscription>, o: SubscriptionObject, hint: UserRef, now: int)
    ensures var fx := SyncSubscription(c, subscriptions, o, hint, now);
            fx.applied.Some? ==> fx.applied.value.at == now && Stores(fx.applied.value, fx.subscriptions)
  {
    hide ResolvePlan, ResolveUser, Readable, StampOr, KeepsPlan;
  }
}
