/**
  The entitlement table of apps/billing: rows with a half-open validity period
  that one operation closes and opens.  The table is shown to be a faithful
  store of a much simpler object, the log of the plans applied to each user.
*/
module Entitlements {
  import opened Common

  /** The feature keys and plan codes of the settings, as an enumeration. */
  datatype Feature = Assessments | ProRoadmap | ExtendedHistory | CountryComparison | ProcessingPriority
  datatype Plan = Free | Pro | OtherPlan(code: string)

  datatype UsageWindow = Monthly | Lifetime

  datatype Spec = Spec(feature: Feature, limit: Option<int>, window: UsageWindow)

  /** One row of the entitlement table.  Every row the service writes is enabled. */
  datatype Row = Row(user: UserId, plan: Plan, subscription: Option<string>, spec: Spec,
                     enabled: bool, validFrom: int, validTo: Option<int>)

  /** The features of a plan; any code but the Pro one gets the Free features. */
  function SpecsFor(freeLimit: int, plan: Plan): (specs: seq<Spec>)
    ensures |specs| > 0 && specs[0].feature == Assessments
    ensures forall i, j :: 0 <= i < j < |specs| ==> specs[i].feature != specs[j].feature
    ensures forall i :: 0 <= i < |specs| ==> specs[i].limit in {None, Some(freeLimit)}
  {
    if plan == Pro then
      [Spec(Assessments, None, Monthly), Spec(ProRoadmap, None, Lifetime), Spec(ExtendedHistory, None, Lifetime),
       Spec(CountryComparison, None, Lifetime), Spec(ProcessingPriority, None, Lifetime)]
    else
      [Spec(Assessments, Some(freeLimit), Monthly)]
  }

  /** The filter every entitlement query uses. */
  predicate ActiveAt(r: Row, user: UserId, t: int) {
    r.user == user && r.enabled && r.validFrom <= t && (r.validTo.None? || r.validTo.value > t)
  }

  function Closed(r: Row, user: UserId, at: int): Row {
    if ActiveAt(r, user, at) then r.(validTo := Some(at)) else r
  }

  function Deactivate(rows: seq<Row>, user: UserId, at: int): (out: seq<Row>)
    ensures |out| == |rows|
  {
    if rows == [] then [] else [Closed(rows[0], user, at)] + Deactivate(rows[1..], user, at)
  }

  /** A plan put into effect for a user at an instant: one entry of the simple log. */
  datatype Application = Application(user: UserId, plan: Plan, subscription: Option<string>, at: int)

  function RowFor(a: Application, spec: Spec): Row {
    Row(a.user, a.plan, a.subscription, spec, true, a.at, None)
  }

  function NewRows(a: Application, specs: seq<Spec>): (rows: seq<Row>)
    ensures |rows| == |specs|
    ensures forall i :: 0 <= i < |specs| ==> rows[i] == RowFor(a, specs[i])
  {
    if specs == [] then [] else [RowFor(a, specs[0])] + NewRows(a, specs[1..])
  }

  function Apply(freeLimit: int, rows: seq<Row>, a: Application): seq<Row> {
    Deactivate(rows, a.user, a.at) + NewRows(a, SpecsFor(freeLimit, a.plan))
  }

  function Grant(r: Row, user: UserId, t: int): seq<Row> {
    if ActiveAt(r, user, t) then [r.(validTo := None)] else []
  }

  /** The rows a query at instant t finds for a user, in table order, with their period's end hidden. */
  function Grants(rows: seq<Row>, user: UserId, t: int): seq<Row> {
    if rows == [] then []
    else Grant(rows[0], user, t) + Grants(rows[1..], user, t)
  }

  /** The table after the applications of a log, oldest first. */
  function Table(freeLimit: int, log: seq<Application>): seq<Row> {
    if log == [] then [] else Apply(freeLimit, Table(freeLimit, log[..|log| - 1]), log[|log| - 1])
  }

  /** The last application for a user at or before t. */
  function Governing(log: seq<Application>, user: UserId, t: int): Option<Application> {
    if log == [] then None
    else
      var last := log[|log| - 1];
      if last.user == user && last.at <= t then Some(last) else Governing(log[..|log| - 1], user, t)
  }

  /** What a plan log says about an instant. */
  function GrantsOf(freeLimit: int, governing: Option<Application>): seq<Row> {
    if governing.None? then [] else NewRows(governing.value, SpecsFor(freeLimit, governing.value.plan))
  }

  lemma {:induction false} NoGrantsWithoutActiveRows(rows: seq<Row>, user: UserId, t: int)
    ensures Grants(rows, user, t) == [] <==> forall i :: 0 <= i < |rows| ==> !ActiveAt(rows[i], user, t)
  {
    hide ActiveAt;
    if rows != [] {
      NoGrantsWithoutActiveRows(rows[1..], user, t);
      assert forall i :: 1 <= i < |rows| ==> rows[i] == rows[1..][i - 1];
    }
  }

  ghost predicate Chronological(log: seq<Application>) {
    forall i, j :: 0 <= i < j < |log| ==> log[i].at <= log[j].at
  }

  lemma {:induction false} GrantsAppend(xs: seq<Row>, ys: seq<Row>, user: UserId, t: int)
    ensures Grants(xs + ys, user, t) == Grants(xs, user, t) + Grants(ys, user, t)
  {
    hide Grant;
    if xs == [] {
      assert xs + ys == ys;
    } else {
      assert (xs + ys)[1..] == xs[1..] + ys;
      GrantsAppend(xs[1..], ys, user, t);
    }
  }

  /** Closing rows at an instant rewrites no earlier instant and no other user. */
  lemma {:induction false} DeactivateKeepsThePast(rows: seq<Row>, closed: UserId, at: int, user: UserId, t: int)
    requires user != closed || t < at
    ensures Grants(Deactivate(rows, closed, at), user, t) == Grants(rows, user, t)
  {
    if rows != [] {
      DeactivateKeepsThePast(rows[1..], closed, at, user, t);
    }
  }

  /** Once every row starts no later than the closing instant, nothing stays active from it on. */
  lemma {:induction false} DeactivateClearsTheFuture(rows: seq<Row>, user: UserId, at: int, t: int)
    requires at <= t
    requires forall i :: 0 <= i < |rows| ==> rows[i].validFrom <= at
    ensures Grants(Deactivate(rows, user, at), user, t) == []
  {
    if rows != [] {
      DeactivateClearsTheFuture(rows[1..], user, at, t);
    }
  }

  lemma {:induction false} GrantsOfNewRows(a: Application, specs: seq<Spec>, user: UserId, t: int)
    ensures Grants(NewRows(a, specs), user, t)
         == if a.user == user && a.at <= t then NewRows(a, specs) else []
  {
    if specs != [] {
      assert NewRows(a, specs)[1..] == NewRows(a, specs[1..]);
      GrantsOfNewRows(a, specs[1..], user, t);
    }
  }

  lemma {:induction false} DeactivateKeepsStarts(rows: seq<Row>, user: UserId, at: int)
    ensures forall i :: 0 <= i < |rows| ==>
              Deactivate(rows, user, at)[i] == Closed(rows[i], user, at)
  {
    if rows != [] {
      DeactivateKeepsStarts(rows[1..], user, at);
    }
  }

  lemma {:induction false} TableStartsInThePast(freeLimit: int, log: seq<Application>, now: int)
    requires Chronological(log)
    requires log != [] ==> log[|log| - 1].at <= now
    ensures forall i :: 0 <= i < |Table(freeLimit, log)| ==> Table(freeLimit, log)[i].validFrom <= now
  {
    if log != [] {
      var prior, last := log[..|log| - 1], log[|log| - 1];
      TableStartsInThePast(freeLimit, prior, last.at);
      DeactivateKeepsStarts(Table(freeLimit, prior), last.user, last.at);
    }
  }

  /** From its instant on an application decides what its user finds; nothing else changes. */
  lemma ApplicationGoverns(freeLimit: int, before: seq<Row>, a: Application, user: UserId, t: int)
    requires forall i :: 0 <= i < |before| ==> before[i].validFrom <= a.at
    ensures Grants(Apply(freeLimit, before, a), user, t)
         == if user == a.user && a.at <= t then GrantsOf(freeLimit, Some(a)) else Grants(before, user, t)
  {
    var specs := SpecsFor(freeLimit, a.plan);
    hide Deactivate, SpecsFor, NewRows, Grants, ActiveAt;
    GrantsAppend(Deactivate(before, a.user, a.at), NewRows(a, specs), user, t);
    GrantsOfNewRows(a, specs, user, t);
    if user == a.user && a.at <= t {
      DeactivateClearsTheFuture(before, user, a.at, t);
    } else {
      DeactivateKeepsThePast(before, a.user, a.at, user, t);
    }
  }

  /**
    The refinement: whatever the log, a query at any instant finds exactly the
    rows of the last plan applied to that user at or before the instant.
  */
  lemma {:induction false} TableRefinesLog(freeLimit: int, log: seq<Application>, user: UserId, t: int)
    requires Chronological(log)
    ensures Grants(Table(freeLimit, log), user, t) == GrantsOf(freeLimit, Governing(log, user, t))
  {
    if log != [] {
      var prior, last := log[..|log| - 1], log[|log| - 1];
      TableRefinesLog(freeLimit, prior, user, t);
      TableStartsInThePast(freeLimit, prior, last.at);
      hide Apply, Grants, Chronological;
      ApplicationGoverns(freeLimit, Table(freeLimit, prior), last, user, t);
    }
  }

  /** Queries only look at active rows, so what they find is what Grants lists. */
  lemma {:induction false} GrantsMembers(rows: seq<Row>, user: UserId, t: int)
    ensures forall i :: 0 <= i < |rows| && ActiveAt(rows[i], user, t) ==> rows[i].(validTo := None) in Grants(rows, user, t)
    ensures forall g :: g in Grants(rows, user, t) ==>
              exists i :: 0 <= i < |rows| && ActiveAt(rows[i], user, t) && g == rows[i].(validTo := None)
  {
    if rows != [] {
      GrantsMembers(rows[1..], user, t);
      forall g | g in Grants(rows, user, t)
        ensures exists i :: 0 <= i < |rows| && ActiveAt(rows[i], user, t) && g == rows[i].(validTo := None)
      {
        if g in Grants(rows[1..], user, t) {
          var k :| 0 <= k < |rows[1..]| && ActiveAt(rows[1..][k], user, t) && g == rows[1..][k].(validTo := None);
          assert rows[k + 1] == rows[1..][k];
        }
      }
    }
  }

  /** Two different rows never grant one feature at one instant. */
  lemma AtMostOneRowPerFeature(freeLimit: int, log: seq<Application>, user: UserId, t: int, i: nat, j: nat)
    requires Chronological(log)
    requires i < |Grants(Table(freeLimit, log), user, t)| && j < |Grants(Table(freeLimit, log), user, t)|
    requires Grants(Table(freeLimit, log), user, t)[i].spec.feature == Grants(Table(freeLimit, log), user, t)[j].spec.feature
    ensures i == j
  {
    TableRefinesLog(freeLimit, log, user, t);
  }

  /** Once any plan has been applied to a user, the user is never again without a row. */
  lemma {:induction false} NeverWithoutGrants(freeLimit: int, log: seq<Application>, user: UserId, t: int, k: nat)
    requires Chronological(log)
    requires k < |log| && log[k].user == user && log[k].at <= t
    ensures |Grants(Table(freeLimit, log), user, t)| > 0
  {
    TableRefinesLog(freeLimit, log, user, t);
    GoverningExists(log, user, t, k);
  }

  lemma {:induction false} GoverningExists(log: seq<Application>, user: UserId, t: int, k: nat)
    requires k < |log| && log[k].user == user && log[k].at <= t
    ensures Governing(log, user, t).Some?
  {
    if k < |log| - 1 {
      GoverningExists(log[..|log| - 1], user, t, k);
    }
  }

  /** The unique constraint of the table: user, feature, usage window and start. */
  ghost predicate UniqueKeys(rows: seq<Row>) {
    forall i, j :: 0 <= i < j < |rows| ==>
      !(rows[i].user == rows[j].user && rows[i].spec.feature == rows[j].spec.feature
        && rows[i].spec.window == rows[j].spec.window && rows[i].validFrom == rows[j].validFrom)
  }

  ghost predicate StrictlyChronological(log: seq<Application>) {
    forall i, j :: 0 <= i < j < |log| ==> log[i].at < log[j].at
  }

  lemma ApplicationKeepsKeysUnique(freeLimit: int, rows: seq<Row>, a: Application)
    requires UniqueKeys(rows) && forall r :: r in rows ==> r.validFrom < a.at
    ensures UniqueKeys(Apply(freeLimit, rows, a))
  {
    DeactivateKeepsStarts(rows, a.user, a.at);
    hide Deactivate, NewRows;
  }

  /** A clock that never repeats keeps the table within its unique constraint. */
  lemma {:induction false} StrictClockKeepsKeysUnique(freeLimit: int, log: seq<Application>)
    requires StrictlyChronological(log)
    ensures UniqueKeys(Table(freeLimit, log))
  {
    if log != [] {
      var prior, last := log[..|log| - 1], log[|log| - 1];
      StrictClockKeepsKeysUnique(freeLimit, prior);
      TableStartsInThePast(freeLimit, prior, last.at - 1);
      hide UniqueKeys, Apply, StrictlyChronological;
      ApplicationKeepsKeysUnique(freeLimit, Table(freeLimit, prior), last);
    }
  }
}
