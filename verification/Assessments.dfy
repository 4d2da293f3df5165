/**
  Creating assessments: idempotency keys, quota consumption and profile snapshot
  versions (apps/assessments/services.py), on top of the billing service.
*/
module Assessments {
  import opened Calendar
  import opened Common
  import opened Entitlements
  import opened BillingRules
  import opened BillingTheorems
  import BillingService

  datatype Assessment = Assessment(user: UserId, key: string, program: int, snapshotVersion: int, requestedAt: int)
  datatype Snapshot = Snapshot(user: UserId, version: int)
  /** programs holds the ids that an assessment's foreign key accepts. */
  datatype World = World(billing: Tables, assessments: seq<Assessment>, snapshots: seq<Snapshot>, programs: set<int>)

  function Find(assessments: seq<Assessment>, user: UserId, key: string): (found: Option<Assessment>)
    ensures found.Some? ==> found.value in assessments && found.value.user == user && found.value.key == key
    ensures found.None? ==> forall a :: a in assessments ==> !(a.user == user && a.key == key)
  {
    if assessments == [] then None
    else if assessments[0].user == user && assessments[0].key == key then Some(assessments[0])
    else Find(assessments[1..], user, key)
  }

  /** The highest snapshot version of a user, 0 when there is none. */
  function LatestVersion(snapshots: seq<Snapshot>, user: UserId): int {
    if snapshots == [] then 0
    else
      var rest := LatestVersion(snapshots[..|snapshots| - 1], user);
      var last := snapshots[|snapshots| - 1];
      if last.user == user then Max(rest, last.version) else rest
  }

  /**
    A request for an assessment.  The quota is committed before the assessment
    exists, so a process may stop in between: interrupted says that it does.
    Nothing looks at the program before the insertion of the assessment does.
  */
  datatype Request = Request(user: UserId, key: string, program: int, now: int, interrupted: bool)

  function CreateAssessment(c: Config, w: World, r: Request): World {
    if Find(w.assessments, r.user, r.key).Some? then
      w.(billing := EnsureBaseline(c, w.billing, r.user, r.now))
    else
      var (decision, billing) := ConsumeQuota(c, w.billing, r.user, r.now);
      if !decision.Accepted? || r.interrupted || r.program !in w.programs then w.(billing := billing)
      else
        var version := LatestVersion(w.snapshots, r.user) + 1;
        World(billing, w.assessments + [Assessment(r.user, r.key, r.program, version, r.now)],
              w.snapshots + [Snapshot(r.user, version)], w.programs)
  }

  datatype Event = Create(request: Request) | Visit(user: UserId, at: int) | Stripe(delivery: Delivery) | Register(program: int)

  function Next(c: Config, w: World, e: Event): World {
    match e
    case Create(r) => CreateAssessment(c, w, r)
    case Visit(user, at) => w.(billing := EnsureBaseline(c, w.billing, user, at))
    case Stripe(d) => w.(billing := Deliver(c, w.billing, d).1)
    case Register(program) => w.(programs := w.programs + {program})
  }

  function Run(c: Config, events: seq<Event>): World {
    if events == [] then World(EMPTY, [], [], {}) else Next(c, Run(c, events[..|events| - 1]), events[|events| - 1])
  }

  // ------------------------------------------------------- the billing side

  /** The billing steps of an event: a key seen before is a plain access, a new one consumes quota. */
  function BillingStep(w: World, e: Event): seq<Step> {
    match e
    case Create(r) =>
      [if Find(w.assessments, r.user, r.key).Some? then Access(r.user, r.now) else Consume(r.user, r.now)]
    case Visit(user, at) => [Access(user, at)]
    case Stripe(d) => [Webhook(d)]
    case Register(_) => []
  }

  function BillingSteps(c: Config, events: seq<Event>): seq<Step> {
    if events == [] then []
    else BillingSteps(c, events[..|events| - 1]) + BillingStep(Run(c, events[..|events| - 1]), events[|events| - 1])
  }

  lemma StepProjects(c: Config, w: World, e: Event)
    ensures var steps := BillingStep(w, e);
            Next(c, w, e).billing == (if steps == [] then w.billing else BillingRules.Next(c, w.billing, steps[0]))
            && |steps| <= 1
  {
    hide ConsumeQuota, Deliver, EnsureBaseline;
  }

  /** Seen from billing, a run of requests is a billing run, so every billing theorem applies to it. */
  lemma {:induction false} RunProjects(c: Config, events: seq<Event>)
    ensures Run(c, events).billing == BillingRules.Run(c, BillingSteps(c, events))
  {
    hide Next, BillingRules.Next, BillingStep;
    if events != [] {
      var prior, last := events[..|events| - 1], events[|events| - 1];
      var w, steps := Run(c, prior), BillingSteps(c, prior);
      RunProjects(c, prior);
      StepProjects(c, w, last);
      var more := BillingStep(w, last);
      if more == [] {
        assert steps + more == steps;
      } else {
        assert (steps + more)[..|steps|] == steps && (steps + more)[|steps|] == more[0];
      }
    }
  }

  // ------------------------------------------------------- keys and versions

  ghost predicate UniqueKeys(assessments: seq<Assessment>) {
    forall i, j :: 0 <= i < j < |assessments| ==>
      !(assessments[i].user == assessments[j].user && assessments[i].key == assessments[j].key)
  }

  /** The versions of a user's snapshots, oldest first. */
  function VersionsOf(snapshots: seq<Snapshot>, user: UserId): seq<int> {
    if snapshots == [] then []
    else
      VersionsOf(snapshots[..|snapshots| - 1], user)
      + (if snapshots[|snapshots| - 1].user == user then [snapshots[|snapshots| - 1].version] else [])
  }

  function AssessmentsOf(assessments: seq<Assessment>, user: UserId): seq<int> {
    if assessments == [] then []
    else
      AssessmentsOf(assessments[..|assessments| - 1], user)
      + (if assessments[|assessments| - 1].user == user then [assessments[|assessments| - 1].snapshotVersion] else [])
  }

  function Numbers(n: nat): (s: seq<int>)
    ensures |s| == n && forall i :: 0 <= i < n ==> s[i] == i + 1
  {
    seq(n, i => i + 1)
  }

  lemma {:induction false} LatestIsTheCount(snapshots: seq<Snapshot>, user: UserId)
    requires VersionsOf(snapshots, user) == Numbers(|VersionsOf(snapshots, user)|)
    ensures LatestVersion(snapshots, user) == |VersionsOf(snapshots, user)|
  {
    if snapshots != [] {
      var prior, all := VersionsOf(snapshots[..|snapshots| - 1], user), VersionsOf(snapshots, user);
      assert prior == all[..|prior|];
      assert prior == Numbers(|prior|);
      LatestIsTheCount(snapshots[..|snapshots| - 1], user);
      if snapshots[|snapshots| - 1].user == user {
        assert all[|prior|] == |prior| + 1;
      }
    }
  }

  lemma CreateKeepsNumbering(c: Config, w: World, e: Event, user: UserId)
    requires VersionsOf(w.snapshots, user) == Numbers(|VersionsOf(w.snapshots, user)|)
    requires AssessmentsOf(w.assessments, user) == VersionsOf(w.snapshots, user)
    ensures var w' := Next(c, w, e);
            && VersionsOf(w'.snapshots, user) == Numbers(|VersionsOf(w'.snapshots, user)|)
            && AssessmentsOf(w'.assessments, user) == VersionsOf(w'.snapshots, user)
  {
    hide ConsumeQuota, Deliver, EnsureBaseline;
    var w' := Next(c, w, e);
    if w'.snapshots != w.snapshots {
      var n := |w.snapshots|;
      assert w'.snapshots[..n] == w.snapshots && w'.assessments[..|w.assessments|] == w.assessments;
      if w'.snapshots[n].user == user {
        LatestIsTheCount(w.snapshots, user);
        var k := |VersionsOf(w.snapshots, user)|;
        assert Numbers(k) + [k + 1] == Numbers(k + 1);
      }
    }
  }

  /** After any run a user's snapshot versions are 1, 2, .., n, and the n assessments of the user use one each, in order. */
  lemma {:induction false} SnapshotVersionsAreConsecutive(c: Config, events: seq<Event>, user: UserId)
    ensures VersionsOf(Run(c, events).snapshots, user) == Numbers(|VersionsOf(Run(c, events).snapshots, user)|)
    ensures AssessmentsOf(Run(c, events).assessments, user) == VersionsOf(Run(c, events).snapshots, user)
  {
    hide Next;
    if events != [] {
      SnapshotVersionsAreConsecutive(c, events[..|events| - 1], user);
      CreateKeepsNumbering(c, Run(c, events[..|events| - 1]), events[|events| - 1], user);
    }
  }

  /** No run stores two assessments under one key of one user. */
  lemma {:induction false} KeysStayUnique(c: Config, events: seq<Event>)
    ensures UniqueKeys(Run(c, events).assessments)
  {
    hide ConsumeQuota, Deliver, EnsureBaseline;
    if events != [] {
      KeysStayUnique(c, events[..|events| - 1]);
    }
  }

  // ------------------------------------------------------------- conservation

  predicate ConsumesFor(c: Config, w: World, e: Event, user: UserId, key: string) {
    e.Create? && e.request.user == user && e.request.key == key && Find(w.assessments, user, key).None?
    && ConsumeQuota(c, w.billing, user, e.request.now).0.Accepted?
  }

  /** How often a run consumed quota, limited or not, for a key. */
  function ConsumptionsFor(c: Config, events: seq<Event>, user: UserId, key: string): nat {
    if events == [] then 0
    else
      var prior, last := events[..|events| - 1], events[|events| - 1];
      ConsumptionsFor(c, prior, user, key) + (if ConsumesFor(c, Run(c, prior), last, user, key) then 1 else 0)
  }

  /** Whether the request's assessment gets stored once its quota is spent. */
  predicate GetsStored(w: World, r: Request) { !r.interrupted && r.program in w.programs }

  /** How many of those consumptions bought nothing: cut off, or for a program that does not exist. */
  function LossesFor(c: Config, events: seq<Event>, user: UserId, key: string): nat {
    if events == [] then 0
    else
      var prior, last := events[..|events| - 1], events[|events| - 1];
      LossesFor(c, prior, user, key)
      + (if ConsumesFor(c, Run(c, prior), last, user, key) && !GetsStored(Run(c, prior), last.request) then 1 else 0)
  }

  function Stored(assessments: seq<Assessment>, user: UserId, key: string): nat {
    if assessments == [] then 0
    else
      Stored(assessments[..|assessments| - 1], user, key)
      + (if assessments[|assessments| - 1].user == user && assessments[|assessments| - 1].key == key then 1 else 0)
  }

  lemma {:induction false} StoredIsZeroOrOne(assessments: seq<Assessment>, user: UserId, key: string)
    requires UniqueKeys(assessments)
    ensures Stored(assessments, user, key) == if Find(assessments, user, key).Some? then 1 else 0
  {
    if assessments != [] {
      var prior, last := assessments[..|assessments| - 1], assessments[|assessments| - 1];
      StoredIsZeroOrOne(prior, user, key);
      var whole := Find(assessments, user, key);
      assert forall a :: a in prior ==> a in assessments;
      if last.user == user && last.key == key {
        assert last in assessments;
        forall i | 0 <= i < |prior|
          ensures !(prior[i].user == user && prior[i].key == key)
        {
          assert assessments[i] == prior[i];
        }
      } else if whole.Some? {
        var i :| 0 <= i < |assessments| && assessments[i] == whole.value;
        assert prior[i] == whole.value;
      }
    }
  }

  lemma StepConserves(c: Config, w: World, e: Event, user: UserId, key: string)
    ensures Stored(Next(c, w, e).assessments, user, key)
         == Stored(w.assessments, user, key)
            + (if ConsumesFor(c, w, e, user, key) && GetsStored(w, e.request) then 1 else 0)
  {
    hide ConsumeQuota, Deliver, EnsureBaseline;
    var w' := Next(c, w, e);
    if w'.assessments != w.assessments {
      assert w'.assessments[..|w.assessments|] == w.assessments;
    }
  }

  /**
    Conservation of quota: consumptions for a key are the assessment stored under
    it, at most one, plus those that bought nothing.  So a key whose requests name a
    program and are not cut off consumes at most once, and exactly when its assessment exists.
  */
  lemma {:induction false} QuotaIsConserved(c: Config, events: seq<Event>, user: UserId, key: string)
    ensures ConsumptionsFor(c, events, user, key)
         == (if Find(Run(c, events).assessments, user, key).Some? then 1 else 0) + LossesFor(c, events, user, key)
  {
    KeysStayUnique(c, events);
    StoredIsZeroOrOne(Run(c, events).assessments, user, key);
    ConsumptionsAreStored(c, events, user, key);
  }

  lemma {:induction false} ConsumptionsAreStored(c: Config, events: seq<Event>, user: UserId, key: string)
    ensures ConsumptionsFor(c, events, user, key)
         == Stored(Run(c, events).assessments, user, key) + LossesFor(c, events, user, key)
  {
    hide Next, ConsumesFor;
    if events != [] {
      ConsumptionsAreStored(c, events[..|events| - 1], user, key);
      StepConserves(c, Run(c, events[..|events| - 1]), events[|events| - 1], user, key);
    }
  }

  /** Whether an event consumed quota for a user, counted against a limit or not. */
  predicate AcceptedFor(c: Config, w: World, e: Event, user: UserId, limited: bool) {
    e.Create? && e.request.user == user && Find(w.assessments, user, e.request.key).None?
    && var decision := ConsumeQuota(c, w.billing, user, e.request.now).0;
       decision.Accepted? && decision.limited == limited
  }

  function Acceptances(c: Config, events: seq<Event>, user: UserId, limited: bool): nat {
    if events == [] then 0
    else
      var prior, last := events[..|events| - 1], events[|events| - 1];
      Acceptances(c, prior, user, limited) + (if AcceptedFor(c, Run(c, prior), last, user, limited) then 1 else 0)
  }

  function Losses(c: Config, events: seq<Event>, user: UserId): nat {
    if events == [] then 0
    else
      var prior, last := events[..|events| - 1], events[|events| - 1];
      var w := Run(c, prior);
      Losses(c, prior, user)
      + (if (AcceptedFor(c, w, last, user, true) || AcceptedFor(c, w, last, user, false)) && !GetsStored(w, last.request)
         then 1 else 0)
  }

  lemma StepStoresTheAccepted(c: Config, w: World, e: Event, user: UserId)
    ensures var accepted := AcceptedFor(c, w, e, user, true) || AcceptedFor(c, w, e, user, false);
            |AssessmentsOf(Next(c, w, e).assessments, user)|
            == |AssessmentsOf(w.assessments, user)| + (if accepted && GetsStored(w, e.request) then 1 else 0)
  {
    hide ConsumeQuota, Deliver, EnsureBaseline;
    var w' := Next(c, w, e);
    if w'.assessments != w.assessments {
      assert w'.assessments[..|w.assessments|] == w.assessments;
    }
  }

  /** Over all keys of a user: limited and unlimited acceptances together are the user's assessments and losses. */
  lemma {:induction false} AcceptancesAreAssessments(c: Config, events: seq<Event>, user: UserId)
    ensures Acceptances(c, events, user, true) + Acceptances(c, events, user, false)
         == |AssessmentsOf(Run(c, events).assessments, user)| + Losses(c, events, user)
  {
    hide Next, AssessmentsOf;
    if events != [] {
      AcceptancesAreAssessments(c, events[..|events| - 1], user);
      StepStoresTheAccepted(c, Run(c, events[..|events| - 1]), events[|events| - 1], user);
    } else {
      NoAssessments(user);
    }
  }

  lemma NoAssessments(user: UserId)
    ensures AssessmentsOf([], user) == []
  {
  }

  /**
    Which accepted requests are stored: of those with a new key that run to their end, exactly the ones whose program
    exists. The others have spent their quota, and the key is as new as before.
  */
  lemma StoredExactlyForAProgram(c: Config, w: World, r: Request)
    requires Find(w.assessments, r.user, r.key).None? && ConsumeQuota(c, w.billing, r.user, r.now).0.Accepted?
    requires !r.interrupted
    ensures Find(CreateAssessment(c, w, r).assessments, r.user, r.key).Some? <==> r.program in w.programs
    ensures CreateAssessment(c, w, r).billing == ConsumeQuota(c, w.billing, r.user, r.now).1
  {
    hide ConsumeQuota;
    if r.program in w.programs {
      var added := Assessment(r.user, r.key, r.program, LatestVersion(w.snapshots, r.user) + 1, r.now);
      FindAppended(w.assessments, added);
    }
  }

  /** A key asked twice for a program that does not exist is charged twice, within any limit of two or more. */
  lemma OneKeyCanConsumeTwice(c: Config, user: UserId, key: string, program: int, at: int)
    requires DefaultPlansEnsured(c) && c.freeLimit >= 2
    ensures var r := Request(user, key, program, at, false);
            var w := Run(c, [Create(r), Create(r)]);
            ConsumptionsFor(c, [Create(r), Create(r)], user, key) == 2 && w.assessments == []
  {
    var r := Request(user, key, program, at, false);
    var one, two := [Create(r)], [Create(r), Create(r)];
    assert one[..0] == [] && two[..1] == one;
    var empty := World(EMPTY, [], [], {});
    assert Run(c, []) == empty;
    FreeConsumption(c, [], user, at);
    assert CreateAssessment(c, empty, r) == empty.(billing := ConsumeQuota(c, EMPTY, user, at).1);
    FreeConsumption(c, [Consume(user, at)], user, at);
    assert [Consume(user, at)][..0] == [];
    assert BillingRules.Run(c, [Consume(user, at)]) == ConsumeQuota(c, EMPTY, user, at).1;
    hide ConsumeQuota;
    assert Run(c, one) == CreateAssessment(c, empty, r);
    assert Run(c, two) == CreateAssessment(c, Run(c, one), r);
    assert ConsumptionsFor(c, one, user, key) == ConsumptionsFor(c, [], user, key) + 1;
    assert ConsumptionsFor(c, two, user, key) == ConsumptionsFor(c, one, user, key) + 1;
  }

  /** Without plans applied, a consumption below the limit is accepted. */
  lemma FreeConsumption(c: Config, steps: seq<Step>, user: UserId, at: int)
    requires DefaultPlansEnsured(c) && c.freeLimit >= 2
    requires steps == [] || steps == [Consume(user, at)]
    ensures ConsumeQuota(c, BillingRules.Run(c, steps), user, at).0.Accepted?
  {
    ConsumeDecision(c, steps, user, at);
    LimitedAcceptancesAreSteps(c, steps, user, WindowStart(at));
  }

  lemma {:induction false} LimitedAcceptancesAreSteps(c: Config, steps: seq<Step>, user: UserId, windowStart: int)
    ensures LimitedAcceptances(c, steps, user, windowStart) <= |steps|
  {
    if steps != [] {
      LimitedAcceptancesAreSteps(c, steps[..|steps| - 1], user, windowStart);
    }
  }

  // -------------------------------------------------------------- the service

  class AssessmentsService {
    var assessments: seq<Assessment>
    var snapshots: seq<Snapshot>
    var programs: set<int>
    const billing: BillingService.BillingService

    constructor (billing: BillingService.BillingService)
      ensures this.billing == billing && assessments == [] && snapshots == [] && programs == {}
    {
      this.billing, assessments, snapshots, programs := billing, [], [], {};
    }

    function State(): World reads this, billing.repo {
      World(billing.repo.State(), assessments, snapshots, programs)
    }

    method LatestSnapshotVersion(user: UserId) returns (latest: int)
      ensures latest == LatestVersion(snapshots, user)
    {
      latest := 0;
      for i := 0 to |snapshots|
        invariant latest == LatestVersion(snapshots[..i], user)
      {
        assert snapshots[..i + 1][..i] == snapshots[..i];
        if snapshots[i].user == user {
          latest := Max(latest, snapshots[i].version);
        }
      }
      assert snapshots[..|snapshots|] == snapshots;
    }

    method Create(r: Request) returns (stored: Option<Assessment>)
      requires DefaultPlansEnsured(billing.config)
      requires billing.repo.committed == billing.repo.State()
      modifies this, billing.repo
      ensures State() == CreateAssessment(billing.config, old(State()), r)
      ensures stored == Find(assessments, r.user, r.key)
      ensures billing.repo.committed == billing.repo.State()
    {
      hide ConsumeQuota, EnsureBaseline;
      stored := Find(assessments, r.user, r.key);
      if stored.Some? {
        var _ := billing.EnsureUserAccessBaseline(r.user, r.now);
        return;
      }
      var decision := billing.ConsumeAssessmentQuota(r.user, r.now);
      if !decision.Accepted? || r.interrupted {
        return;
      }
      var latest := LatestSnapshotVersion(r.user);
      if r.program !in programs {
        return;
      }
      var added := Assessment(r.user, r.key, r.program, latest + 1, r.now);
      snapshots := snapshots + [Snapshot(r.user, latest + 1)];
      assessments := assessments + [added];
      stored := Some(added);
      FindAppended(old(assessments), added);
    }
  }

  lemma {:induction false} FindAppended(assessments: seq<Assessment>, added: Assessment)
    requires Find(assessments, added.user, added.key).None?
    ensures Find(assessments + [added], added.user, added.key) == Some(added)
  {
    if assessments != [] {
      assert (assessments + [added])[1..] == assessments[1..] + [added];
      FindAppended(assessments[1..], added);
    }
  }
}
