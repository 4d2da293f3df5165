/**
  Runs whose items never start again and whose attempts never fail before their start is committed: what overlapping
  recounts (finalize_run in apps/ingestion/services.py) can and cannot do to them. Then runs without retries.
*/
module SteadyRuns {
  import opened Common
  import opened IngestionRun
  import opened OverlappingRecounts

  ghost predicate StartedIn(events: seq<Event>, i: nat) {
    exists k :: 0 <= k < |events| && events[k] == Start(i)
  }

  /** No item is started twice. */
  ghost predicate StartsOnce(events: seq<Event>) {
    forall k, l :: 0 <= k < l < |events| && events[k].Start? ==> events[l] != events[k]
  }

  /** No attempt fails before its start is committed. */
  ghost predicate FailsAfterStarting(events: seq<Event>) {
    forall k :: 0 <= k < |events| && events[k].Raise? ==> StartedIn(events[..k], events[k].i)
  }

  ghost predicate Steady(events: seq<Event>) { StartsOnce(events) && FailsAfterStarting(events) }

  /** A row that is not pending, and settled only if nothing that was read was open. */
  ghost predicate LoadedBefore(row: Row, read: seq<ItemStatus>) {
    !row.status.RunPending? && (Settled(row) ==> NoneOpen(read))
  }

  ghost predicate TaskFits(s: Run, t: Phase) {
    (t.Loaded? ==> LoadedBefore(t.row, Statuses(s.items)))
    && (t.Writing? ==> LoadedBefore(t.recount.row, t.recount.read)
                       && (NoneOpen(t.recount.read) ==> NoneOpen(Statuses(s.items))))
  }

  /** What such runs keep: once everything read was closed, everything stays closed. */
  ghost predicate SteadyState(s: Run) {
    |s.items| == |s.tasks|
    && (Settled(s.row) ==> NoneOpen(Statuses(s.items)))
    && (forall i :: 0 <= i < |s.tasks| ==> TaskFits(s, s.tasks[i]))
    && (forall k :: 0 <= k < |s.log| ==> LoadedBefore(s.log[k].row, s.log[k].read))
  }

  /** Which tasks have left the queue, and what that means for the run. */
  ghost predicate Begun(events: seq<Event>, s: Run) {
    (forall i :: 0 <= i < |s.tasks| && StartedIn(events, i) ==> !s.row.status.RunPending?)
    && (forall i :: 0 <= i < |s.tasks| && !(s.tasks[i].Queued? && s.tasks[i].attempt == 1) ==> StartedIn(events, i))
  }

  lemma SteadyPrefix(events: seq<Event>)
    requires events != [] && Steady(events)
    ensures Steady(events[..|events| - 1])
  {
    var prior := events[..|events| - 1];
    forall k | 0 <= k < |prior| && prior[k].Raise?
      ensures StartedIn(prior[..k], prior[k].i)
    {
      assert prior[..k] == events[..k];
    }
  }

  lemma StartedByNow(events: seq<Event>, i: nat)
    requires events != []
    ensures StartedIn(events, i) <==> StartedIn(events[..|events| - 1], i) || events[|events| - 1] == Start(i)
  {
    var prior := events[..|events| - 1];
    assert forall k :: 0 <= k < |prior| ==> prior[k] == events[k];
  }

  lemma StartIsTheFirst(events: seq<Event>)
    requires events != [] && Steady(events)
    ensures var last := events[|events| - 1]; last.Start? ==> !StartedIn(events[..|events| - 1], last.i)
  {
    var prior := events[..|events| - 1];
    assert forall k :: 0 <= k < |prior| ==> prior[k] == events[k];
  }

  lemma PendingNeverReturns(maxRetries: nat, s: Run, event: Event)
    requires |s.items| == |s.tasks| && !s.row.status.RunPending?
    ensures !Step(maxRetries, s, event).row.status.RunPending?
  {
    hide Statuses;
  }

  lemma StepKeepsBegun(maxRetries: nat, s: Run, events: seq<Event>)
    requires |s.items| == |s.tasks| && events != [] && Steady(events) && Begun(events[..|events| - 1], s)
    ensures Begun(events, Step(maxRetries, s, events[|events| - 1]))
  {
    var prior, event := events[..|events| - 1], events[|events| - 1];
    var s' := Step(maxRetries, s, event);
    forall i: nat
      ensures StartedIn(events, i) <==> StartedIn(prior, i) || event == Start(i)
    {
      StartedByNow(events, i);
    }
    if !s.row.status.RunPending? {
      PendingNeverReturns(maxRetries, s, event);
    }
    assert event.Raise? ==> StartedIn(prior, event.i);
    hide Steady, StartedIn, Settle, Merged, Statuses;
    forall i | 0 <= i < |s.tasks|
      ensures StartedIn(events, i) ==> !s'.row.status.RunPending?
      ensures !(s'.tasks[i].Queued? && s'.tasks[i].attempt == 1) ==> StartedIn(events, i)
    {
      if i != event.i {
        EffectIsLocal(maxRetries, s, event, i);
      }
    }
  }

  /** Without a restart, no step opens an item that was closed. */
  lemma ClosedStaysClosed(maxRetries: nat, s: Run, events: seq<Event>)
    requires PhasesFit(maxRetries, s) && events != [] && Steady(events) && Begun(events[..|events| - 1], s)
    requires NoneOpen(Statuses(s.items))
    ensures NoneOpen(Statuses(Step(maxRetries, s, events[|events| - 1]).items))
  {
    var prior, event := events[..|events| - 1], events[|events| - 1];
    var s' := Step(maxRetries, s, event);
    if event.i < |s.tasks| {
      var i, t := event.i, s.tasks[event.i];
      assert PhaseFits(maxRetries, |s.items|, s.items[i], t) && !Open(Statuses(s.items)[i]);
      StartIsTheFirst(events);
      hide Settle, Merged, Steady, StartedIn;
      forall j | 0 <= j < |s.tasks|
        ensures !Open(s'.items[j].status)
      {
        assert !Open(Statuses(s.items)[j]);
        if j != i {
          EffectIsLocal(maxRetries, s, event, j);
        }
      }
    }
  }

  lemma StepKeepsSteady(maxRetries: nat, s: Run, event: Event)
    requires |s.items| == |s.tasks| && SteadyState(s)
    requires forall i :: 0 <= i < |s.tasks| && s.tasks[i].Recounting? ==> !s.row.status.RunPending?
    requires NoneOpen(Statuses(s.items)) ==> NoneOpen(Statuses(Step(maxRetries, s, event).items))
    ensures SteadyState(Step(maxRetries, s, event))
  {
    var s' := Step(maxRetries, s, event);
    if event.i < |s.tasks| {
      var i, t := event.i, s.tasks[event.i];
      StepInShort(maxRetries, s, event);
      assert TaskFits(s, t);
      hide Step, NoneOpen, Statuses, Merged, Target, Settle;
      forall j | 0 <= j < |s.tasks|
        ensures TaskFits(s', s'.tasks[j])
      {
        assert TaskFits(s, s.tasks[j]);
      }
      hide TaskFits;
      if s'.log != s.log {
        var e := Committing(s, i);
        assert LoadedBefore(e.row, e.read) && (NoneOpen(e.read) ==> NoneOpen(Statuses(s.items)));
        CommitSettles(s.row, e);
      }
    }
  }

  /** A commit leaves a settled row only where the row was settled already, or nothing that was read was open. */
  lemma CommitSettles(stored: Row, e: Recounted)
    ensures Settled(Merged(stored, e.row, Target(e))) ==> Settled(stored) || NoneOpen(e.read)
  {
    TargetIs(e);
    RecountSettles(e.row, e.read);
    hide Target, Settle, NoneOpen;
  }

  lemma {:induction false} AlwaysSteady(maxRetries: nat, n: nat, events: seq<Event>)
    requires Steady(events)
    ensures Begun(events, After(maxRetries, n, events)) && SteadyState(After(maxRetries, n, events))
  {
    if events != [] {
      var prior, event := events[..|events| - 1], events[|events| - 1];
      SteadyPrefix(events);
      AlwaysSteady(maxRetries, n, prior);
      AfterKeepsPhases(maxRetries, n, prior);
      var s := After(maxRetries, n, prior);
      hide Steady, Step, SteadyState, PhasesFit;
      StepKeepsBegun(maxRetries, s, events);
      if NoneOpen(Statuses(s.items)) {
        ClosedStaysClosed(maxRetries, s, events);
      }
      StepKeepsSteady(maxRetries, s, event);
    }
  }

  /**
    However recounts overlap and fail, at every moment of a steady run: it is settled exactly if some committed
    recount had read no open item.
  */
  lemma SteadyRunSettledExactly(maxRetries: nat, n: nat, events: seq<Event>)
    requires Steady(events)
    ensures var s := After(maxRetries, n, events);
            Settled(s.row) <==> exists k :: 0 <= k < |s.log| && NoneOpen(s.log[k].read)
  {
    var s := After(maxRetries, n, events);
    var last := LastChange(s.log, StatusColumn);
    SettledExactly(maxRetries, n, events);
    LastChangeWasSeen(maxRetries, n, events, StatusColumn);
    LastSettles(maxRetries, n, events);
    RowsFit(maxRetries, n, events);
    hide After, SeenAtLastChange, Stamped, LastChange;
    if last.Some? {
      assert exists k :: 0 <= k < |s.log| && s.log[k] == last.value;
    } else {
      forall k | 0 <= k < |s.log|
        ensures !NoneOpen(s.log[k].read)
      {
        var e := s.log[k];
        assert !Changes(e, StatusColumn) && HeldFits(s, e.row);
        RecountSettles(e.row, e.read);
      }
    }
  }

  /** So with every task ended by its recount and every outcome recorded, a steady run is never left running. */
  lemma NeverLeftRunning(maxRetries: nat, n: nat, events: seq<Event>)
    requires n > 0 && Steady(events) && Finished(After(maxRetries, n, events))
    ensures Settled(After(maxRetries, n, events).row)
  {
    var s := After(maxRetries, n, events);
    SteadyRunSettledExactly(maxRetries, n, events);
    SomeRecountIsFresh(maxRetries, n, events);
    FinishedIsClosed(maxRetries, n, events);
  }

  /** The last recount that changed the status of a steady run had read no open item. */
  lemma LastSettles(maxRetries: nat, n: nat, events: seq<Event>)
    requires Steady(events)
    ensures var last := LastChange(After(maxRetries, n, events).log, StatusColumn);
            last.Some? ==> NoneOpen(last.value.read)
  {
    var s := After(maxRetries, n, events);
    var last := LastChange(s.log, StatusColumn);
    if last.Some? {
      AlwaysSteady(maxRetries, n, events);
      hide After, LastChange;
      var e := last.value;
      assert exists k :: 0 <= k < |s.log| && s.log[k] == e;
      assert LoadedBefore(e.row, e.read);
      VerdictOfRecount(e.row, e.read);
    }
  }

  // ------------------------------------------------- without retries

  lemma OutcomesAreFinal(s: Run, event: Event, j: nat)
    requires PhasesFit(0, s) && j < |s.tasks| && !Open(s.items[j].status)
    ensures Step(0, s, event).items[j] == s.items[j]
  {
    assert PhaseFits(0, |s.items|, s.items[j], s.tasks[j]);
    hide Settle, Merged, Statuses;
  }

  /** Without retries an item that has been closed keeps its status. */
  lemma {:induction false} ClosedIsFinal(n: nat, events: seq<Event>, from: nat, j: nat)
    requires from <= |events| && j < n && !Open(StatusesAt(0, n, events, from)[j])
    ensures After(0, n, events).items[j].status == StatusesAt(0, n, events, from)[j]
    decreases |events|
  {
    assert events[..|events|] == events;
    if from < |events| {
      var prior := events[..|events| - 1];
      assert prior[..from] == events[..from];
      ClosedIsFinal(n, prior, from, j);
      AfterKeepsPhases(0, n, prior);
      OutcomesAreFinal(After(0, n, prior), events[|events| - 1], j);
    }
  }

  /**
    Without retries a settled row is right, at every moment of every run, whatever overlapped or failed: no item is
    open, and it says completed exactly when every item succeeded.
  */
  lemma SettledIsExactWithoutRetries(n: nat, events: seq<Event>)
    ensures var s := After(0, n, events);
            Settled(s.row) ==>
              NoneOpen(Statuses(s.items)) && ColumnAccurate(s, StatusColumn)
              && (s.row.status.RunCompleted? <==> forall j :: 0 <= j < n ==> Succeeded(s.items[j].status))
  {
    var s := After(0, n, events);
    var last := LastChange(s.log, StatusColumn);
    SettledExactly(0, n, events);
    LastChangeWasSeen(0, n, events, StatusColumn);
    ColumnsFollowTheirLastChange(0, n, events, StatusColumn);
    if Settled(s.row) {
      var at := last.value.at;
      forall j | 0 <= j < n
        ensures StatusesAt(0, n, events, at)[j] == Statuses(s.items)[j]
      {
        ClosedIsFinal(n, events, at, j);
      }
      assert StatusesAt(0, n, events, at) == Statuses(s.items);
      hide After, Settle;
      VerdictOfRecount(s.row, Statuses(s.items));
      assert forall j :: 0 <= j < n ==> Statuses(s.items)[j] == s.items[j].status;
    }
  }

  predicate Closed(s: ItemStatus) { !Open(s) }

  /** The items that a counter counts. */
  function CountedBy(c: Column): ItemStatus -> bool {
    match c case SuccessColumn => Succeeded case FailedColumn => HasFailed case _ => Closed
  }

  lemma {:induction false} ClosedAreCounted(statuses: seq<ItemStatus>)
    ensures Count(statuses, Closed) == Count(statuses, Succeeded) + Count(statuses, HasFailed)
  {
    if statuses != [] {
      ClosedAreCounted(statuses[1..]);
    }
  }

  lemma CounterIsACount(row: Row, statuses: seq<ItemStatus>, c: Column)
    requires c != StatusColumn
    ensures Value(Settle(row, statuses), c) == Count(statuses, CountedBy(c))
  {
    ClosedAreCounted(statuses);
  }

  lemma {:induction false} CountGrows(xs: seq<ItemStatus>, ys: seq<ItemStatus>, p: ItemStatus -> bool)
    requires |xs| == |ys| && forall i :: 0 <= i < |xs| && p(xs[i]) ==> p(ys[i])
    ensures Count(xs, p) <= Count(ys, p)
    ensures Count(xs, p) == Count(ys, p) <==> forall i :: 0 <= i < |xs| && p(ys[i]) ==> p(xs[i])
  {
    if xs != [] {
      CountGrows(xs[1..], ys[1..], p);
      assert forall i :: 1 <= i < |xs| ==> xs[i] == xs[1..][i - 1] && ys[i] == ys[1..][i - 1];
    }
  }

  lemma CountedAreClosed(early: seq<ItemStatus>, late: seq<ItemStatus>, c: Column)
    requires |early| == |late| && forall j :: 0 <= j < |late| && Closed(early[j]) ==> early[j] == late[j]
    ensures Count(early, CountedBy(c)) == Count(late, CountedBy(c))
       <==> forall j :: 0 <= j < |late| && CountedBy(c)(late[j]) ==> Closed(early[j])
  {
    assert forall j :: 0 <= j < |early| && CountedBy(c)(early[j]) ==> Closed(early[j]);
    CountGrows(early, late, CountedBy(c));
  }

  /**
    Without retries a counter is right, at every moment of every run, exactly if the last recount that changed it read
    the items after the outcome of every item it counts; without such a recount, exactly if it has none to count.
  */
  lemma CountersExactlyWithoutRetries(n: nat, events: seq<Event>, c: Column)
    requires c != StatusColumn
    ensures var s := After(0, n, events);
            ColumnAccurate(s, c) <==>
              match SeenAtLastChange(0, n, events, c)
              case None => forall j :: 0 <= j < n ==> !CountedBy(c)(s.items[j].status)
              case Some(read) =>
                |read| == n && forall j :: 0 <= j < n && CountedBy(c)(s.items[j].status) ==> Closed(read[j])
  {
    var s := After(0, n, events);
    var late := Statuses(s.items);
    ColumnExactly(0, n, events, c);
    LastChangeWasSeen(0, n, events, c);
    CounterIsACount(s.row, late, c);
    CountIsZero(late, CountedBy(c));
    if LastChange(s.log, c).Some? {
      var e := LastChange(s.log, c).value;
      hide After, Settle, LastChange, CountedBy, SeenAtLastChange;
      forall j | 0 <= j < n && Closed(e.read[j])
        ensures e.read[j] == late[j]
      {
        ClosedIsFinal(n, events, e.at, j);
      }
      CounterIsACount(s.row, e.read, c);
      CountedAreClosed(e.read, late, c);
      assert forall j :: 0 <= j < n ==> late[j] == s.items[j].status;
    } else {
      hide After, Settle, LastChange, CountedBy;
      assert forall j :: 0 <= j < n ==> late[j] == s.items[j].status;
    }
  }
}
