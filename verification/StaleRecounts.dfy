/** Concrete runs that leave the row wrong (finalize_run in apps/ingestion/services.py, its calls in tasks.py). */
module StaleRecounts {
  import opened Common
  import opened IngestionRun
  import opened OverlappingRecounts
  import opened SteadyRuns

  lemma Advance(maxRetries: nat, n: nat, events: seq<Event>, s: Run, e: Event, s': Run)
    requires After(maxRetries, n, events) == s && |s.items| == |s.tasks| && Step(maxRetries, s, e) == s'
    ensures After(maxRetries, n, events + [e]) == s'
  {
    assert (events + [e])[..|events|] == events;
  }

  lemma CountTwo(a: ItemStatus, b: ItemStatus, p: ItemStatus -> bool)
    ensures Count([a, b], p) == (if p(a) then 1 else 0) + (if p(b) then 1 else 0)
  {
    assert [a, b][1..] == [b] && [b][1..] == [];
    assert Count([b], p) == (if p(b) then 1 else 0) + Count([], p);
  }

  lemma CountThree(a: ItemStatus, b: ItemStatus, c: ItemStatus, p: ItemStatus -> bool)
    ensures Count([a, b, c], p) == (if p(a) then 1 else 0) + (if p(b) then 1 else 0) + (if p(c) then 1 else 0)
  {
    assert [a, b, c][1..] == [b, c];
    CountTwo(b, c, p);
  }

  lemma RecountStep(maxRetries: nat, s: Run, i: nat)
    requires i < |s.items| == |s.tasks| && s.tasks[i].Recounting?
    ensures var t := s.tasks[i];
            Step(maxRetries, s, Recount(i))
            == Run(Settle(s.row, Statuses(s.items)), s.items, s.tasks[i := Ended(t.attempt, t.lost, true)], s.clock + 1,
                   s.log + [Recounted(i, s.row, Statuses(s.items), s.clock)])
  {
    RecountNow(s, i);
  }

  lemma WriteNow(maxRetries: nat, s: Run, i: nat)
    requires i < |s.items| == |s.tasks| && s.tasks[i].Writing?
    ensures var t := s.tasks[i];
            Step(maxRetries, s, Write(i))
            == Run(Merged(s.row, t.recount.row, Settle(t.recount.row, t.recount.read)), s.items,
                   s.tasks[i := Ended(t.attempt, t.lost, true)], s.clock + 1, s.log + [t.recount])
  {
    hide Settle, Merged;
  }

  // ------------------------------------------------- two items, no retry: a counter left short

  const BEGUN2 := Row(RunRunning, 2, 0, 0, 0)
  const DONE2 := Row(RunCompleted, 2, 2, 2, 0)
  const EARLY2: Recounted := Recounted(0, BEGUN2, [Completed, Running], 4)
  const LATE2: Recounted := Recounted(1, BEGUN2, [Completed, Completed], 6)
  const COUNTING: Phase := Recounting(1, false, false)
  const COUNTED: Phase := Ended(1, false, true)

  function Two(row: Row, a: Item, b: Item, t: Phase, u: Phase, clock: nat, log: seq<Recounted>): Run {
    Run(row, [a, b], [t, u], clock, log)
  }

  const OK := Item(Completed, 1)
  const BUSY := Item(Running, 1)

  lemma TwoTargets()
    ensures Settle(BEGUN2, LATE2.read) == DONE2 && Settle(BEGUN2, EARLY2.read) == Row(RunRunning, 2, 1, 1, 0)
  {
    CountTwo(Completed, Completed, Succeeded);
    CountTwo(Completed, Completed, HasFailed);
    CountTwo(Completed, Completed, Open);
    CountTwo(Completed, Running, Succeeded);
    CountTwo(Completed, Running, HasFailed);
    CountTwo(Completed, Running, Open);
    hide Count;
  }

  lemma TwoBegin()
    ensures After(0, 2, BEGIN2) == READ2
  {
    var s1 := Two(BEGUN2, BUSY, Item(Pending, 0), Processing(1), Queued(1), 1, []);
    var s2 := Two(BEGUN2, BUSY, BUSY, Processing(1), Processing(1), 2, []);
    var s3 := Two(BEGUN2, OK, BUSY, COUNTING, Processing(1), 3, []);
    var s4 := Two(BEGUN2, OK, BUSY, Loaded(1, false, false, BEGUN2), Processing(1), 4, []);
    assert Statuses(s4.items) == EARLY2.read;
    assert Step(0, Initial(2), Start(0)) == s1;
    assert Step(0, s1, Start(1)) == s2;
    assert Step(0, s2, Return(0, Completed)) == s3;
    assert Step(0, s3, Load(0)) == s4;
    assert Step(0, s4, Read(0)) == READ2;
    assert After(0, 2, []) == Initial(2);
    hide After, Step;
    Advance(0, 2, [], Initial(2), Start(0), s1);
    Advance(0, 2, [] + [Start(0)], s1, Start(1), s2);
    Advance(0, 2, [] + [Start(0)] + [Start(1)], s2, Return(0, Completed), s3);
    Advance(0, 2, [] + [Start(0)] + [Start(1)] + [Return(0, Completed)], s3, Load(0), s4);
    Advance(0, 2, [] + [Start(0)] + [Start(1)] + [Return(0, Completed)] + [Load(0)], s4, Read(0), READ2);
  }

  const BEGIN2: seq<Event> := [] + [Start(0)] + [Start(1)] + [Return(0, Completed)] + [Load(0)] + [Read(0)]
  const READ2: Run := Two(BEGUN2, OK, BUSY, Writing(1, false, false, EARLY2), Processing(1), 5, [])
  const BOTH2: Run := Two(BEGUN2, OK, OK, Writing(1, false, false, EARLY2), COUNTING, 6, [])
  const RIGHT2: Run := Two(DONE2, OK, OK, Writing(1, false, false, EARLY2), COUNTED, 7, [LATE2])
  const SHORT2: Run := Two(Row(RunCompleted, 2, 1, 1, 0), OK, OK, COUNTED, COUNTED, 8, [LATE2, EARLY2])

  lemma TwoEnd()
    ensures Step(0, READ2, Return(1, Completed)) == BOTH2
    ensures Step(0, BOTH2, Recount(1)) == RIGHT2 && Step(0, RIGHT2, Write(0)) == SHORT2
  {
    assert Step(0, READ2, Return(1, Completed)) == BOTH2;
    assert Statuses(BOTH2.items) == LATE2.read;
    TwoTargets();
    hide Step, Statuses, Settle;
    RecountStep(0, BOTH2, 1);
    WriteNow(0, RIGHT2, 0);
  }

  /** The first task reads before the second item's outcome and commits after the second task's recount. */
  lemma CounterCanBeLeftShort()
    ensures exists events ::
              var s := After(0, 2, events);
              Finished(s) && s.row == Row(RunCompleted, 2, 1, 1, 0) && s.items == [OK, OK]
  {
    TwoBegin();
    TwoEnd();
    hide After, Step;
    Advance(0, 2, BEGIN2, READ2, Return(1, Completed), BOTH2);
    Advance(0, 2, BEGIN2 + [Return(1, Completed)], BOTH2, Recount(1), RIGHT2);
    Advance(0, 2, BEGIN2 + [Return(1, Completed)] + [Recount(1)], RIGHT2, Write(0), SHORT2);
    assert Finished(SHORT2);
    assert After(0, 2, BEGIN2 + [Return(1, Completed)] + [Recount(1)] + [Write(0)]) == SHORT2;
  }

  // ------------------------------------------------- three items, one retry: left running

  const BEGUN := Row(RunRunning, 3, 0, 0, 0)
  const BAD := Row(RunFailed, 3, 3, 2, 1)
  const DONE := Row(RunCompleted, 3, 3, 3, 0)
  const FIRST: Recounted := Recounted(1, BEGUN, [Failed, Completed, Completed], 7)
  const STALE: Recounted := Recounted(2, BAD, [Running, Completed, Completed], 10)
  const LAST: Recounted := Recounted(0, BAD, [Completed, Completed, Completed], 12)

  function Three(row: Row, a: Item, b: Item, c: Item, t: Phase, u: Phase, v: Phase, clock: nat, log: seq<Recounted>): Run {
    Run(row, [a, b, c], [t, u, v], clock, log)
  }

  const QUEUE: Item := Item(Pending, 0)
  const FAILED: Item := Item(Failed, 1)
  const RETRIED: Item := Item(Completed, 2)

  const STARTS: seq<Event> := [] + [Start(0)] + [Start(1)] + [Start(2)]
  const OUTCOMES: seq<Event> := STARTS + [Raise(0, Some(Failed), false)] + [Decide(0)] + [Return(1, Completed)] + [Return(2, Completed)]
  const RESTART: seq<Event> := OUTCOMES + [Recount(1)] + [Load(2)] + [Start(0)] + [Read(2)]

  const ALL_BUSY: Run := Three(BEGUN, BUSY, BUSY, BUSY, Processing(1), Processing(1), Processing(1), 3, [])
  const ALL_OUT: Run := Three(BEGUN, FAILED, OK, OK, Queued(2), COUNTING, COUNTING, 7, [])
  const REREAD: Run := Three(BAD, Item(Running, 2), OK, OK, Processing(2), COUNTED, Writing(1, false, false, STALE), 11, [FIRST])

  lemma ThreeTargets()
    ensures Settle(BEGUN, FIRST.read) == BAD && Settle(BAD, LAST.read) == DONE
    ensures Settle(BAD, STALE.read) == Row(RunRunning, 3, 2, 2, 0)
  {
    ThreeCounts(Failed);
    ThreeCounts(Completed);
    ThreeCounts(Running);
    hide Count;
  }

  lemma ThreeCounts(a: ItemStatus)
    ensures var st := [a, Completed, Completed];
            Count(st, Succeeded) == 2 + (if Succeeded(a) then 1 else 0)
            && Count(st, HasFailed) == (if HasFailed(a) then 1 else 0) && Count(st, Open) == if Open(a) then 1 else 0
  {
    CountThree(a, Completed, Completed, Succeeded);
    CountThree(a, Completed, Completed, HasFailed);
    CountThree(a, Completed, Completed, Open);
    hide Count;
  }

  lemma ThreeStart()
    ensures After(1, 3, STARTS) == ALL_BUSY
  {
    var p, q := Processing(1), Queued(1);
    var s1 := Three(BEGUN, BUSY, QUEUE, QUEUE, p, q, q, 1, []);
    var s2 := Three(BEGUN, BUSY, BUSY, QUEUE, p, p, q, 2, []);
    assert Step(1, Initial(3), Start(0)) == s1;
    assert Step(1, s1, Start(1)) == s2;
    assert Step(1, s2, Start(2)) == ALL_BUSY;
    assert After(1, 3, []) == Initial(3);
    hide After, Step;
    Advance(1, 3, [], Initial(3), Start(0), s1);
    Advance(1, 3, [] + [Start(0)], s1, Start(1), s2);
    Advance(1, 3, [] + [Start(0)] + [Start(1)], s2, Start(2), ALL_BUSY);
  }

  /** The first item fails and is queued again; the others succeed. */
  lemma ThreeOutcomes()
    ensures After(1, 3, OUTCOMES) == ALL_OUT
  {
    var p := Processing(1);
    var s4 := Three(BEGUN, FAILED, BUSY, BUSY, Raised(1, false, false), p, p, 4, []);
    var s5 := Three(BEGUN, FAILED, BUSY, BUSY, Queued(2), p, p, 5, []);
    var s6 := Three(BEGUN, FAILED, OK, BUSY, Queued(2), COUNTING, p, 6, []);
    ThreeStart();
    assert Step(1, ALL_BUSY, Raise(0, Some(Failed), false)) == s4;
    assert Step(1, s4, Decide(0)) == s5;
    assert Step(1, s5, Return(1, Completed)) == s6;
    assert Step(1, s6, Return(2, Completed)) == ALL_OUT;
    hide After, Step;
    Advance(1, 3, STARTS, ALL_BUSY, Raise(0, Some(Failed), false), s4);
    Advance(1, 3, STARTS + [Raise(0, Some(Failed), false)], s4, Decide(0), s5);
    Advance(1, 3, STARTS + [Raise(0, Some(Failed), false)] + [Decide(0)], s5, Return(1, Completed), s6);
    Advance(1, 3, STARTS + [Raise(0, Some(Failed), false)] + [Decide(0)] + [Return(1, Completed)], s6, Return(2, Completed), ALL_OUT);
  }

  const SETTLED: Run := Three(BAD, FAILED, OK, OK, Queued(2), COUNTED, COUNTING, 8, [FIRST])
  const LOADED: Run := Three(BAD, FAILED, OK, OK, Queued(2), COUNTED, Loaded(1, false, false, BAD), 9, [FIRST])
  const AGAIN: Run := Three(BAD, Item(Running, 2), OK, OK, Processing(2), COUNTED, Loaded(1, false, false, BAD), 10, [FIRST])

  lemma SecondRecounts()
    ensures Step(1, ALL_OUT, Recount(1)) == SETTLED
  {
    assert Statuses(ALL_OUT.items) == FIRST.read;
    ThreeTargets();
    hide Step, Settle, Statuses;
    RecountStep(1, ALL_OUT, 1);
  }

  lemma ThirdLoadsAndReads()
    ensures Step(1, SETTLED, Load(2)) == LOADED && Step(1, LOADED, Start(0)) == AGAIN && Step(1, AGAIN, Read(2)) == REREAD
  {
    assert Statuses(AGAIN.items) == STALE.read;
    hide Statuses;
  }

  /** The second task's recount finds the run failed; the third loads that, and reads after the first has restarted. */
  lemma ThreeRestart()
    ensures After(1, 3, RESTART) == REREAD
  {
    ThreeOutcomes();
    SecondRecounts();
    ThirdLoadsAndReads();
    hide After, Step;
    Advance(1, 3, OUTCOMES, ALL_OUT, Recount(1), SETTLED);
    Advance(1, 3, OUTCOMES + [Recount(1)], SETTLED, Load(2), LOADED);
    Advance(1, 3, OUTCOMES + [Recount(1)] + [Load(2)], LOADED, Start(0), AGAIN);
    Advance(1, 3, OUTCOMES + [Recount(1)] + [Load(2)] + [Start(0)], AGAIN, Read(2), REREAD);
  }

  const RESTARTED: seq<Event> := RESTART + [Return(0, Completed)] + [Recount(0)] + [Write(2)]

  lemma FailsOnlyAfterStarting()
    ensures FailsAfterStarting(RESTARTED)
  {
    forall k | 0 <= k < |RESTARTED| && RESTARTED[k].Raise?
      ensures StartedIn(RESTARTED[..k], RESTARTED[k].i)
    {
      assert RESTARTED[..k][0] == Start(0);
    }
  }

  const RETRY_OUT: Run :=
    Three(BAD, RETRIED, OK, OK, Recounting(2, false, false), COUNTED, Writing(1, false, false, STALE), 12, [FIRST])
  const RETRY_DONE: Run :=
    Three(DONE, RETRIED, OK, OK, Ended(2, false, true), COUNTED, Writing(1, false, false, STALE), 13, [FIRST, LAST])
  const TAKEN_BACK: Run :=
    Three(Row(RunRunning, 3, 2, 3, 0), RETRIED, OK, OK, Ended(2, false, true), COUNTED, COUNTED, 14, [FIRST, LAST, STALE])

  lemma ThreeEnd()
    ensures Step(1, REREAD, Return(0, Completed)) == RETRY_OUT
    ensures Step(1, RETRY_OUT, Recount(0)) == RETRY_DONE && Step(1, RETRY_DONE, Write(2)) == TAKEN_BACK
  {
    assert Step(1, REREAD, Return(0, Completed)) == RETRY_OUT;
    assert Statuses(RETRY_OUT.items) == LAST.read;
    ThreeTargets();
    hide Step, Statuses, Settle;
    RecountStep(1, RETRY_OUT, 0);
    WriteNow(1, RETRY_DONE, 2);
  }

  /** The retry succeeds and completes the run; the third task's commit takes it back to running, for good. */
  lemma RetriedRunCanBeLeftRunning()
    ensures exists events ::
              var s := After(1, 3, events);
              FailsAfterStarting(events) && Finished(s) && s.row.status.RunRunning? && s.items == [RETRIED, OK, OK]
  {
    ThreeRestart();
    ThreeEnd();
    FailsOnlyAfterStarting();
    hide After, Step, FailsAfterStarting;
    Advance(1, 3, RESTART, REREAD, Return(0, Completed), RETRY_OUT);
    Advance(1, 3, RESTART + [Return(0, Completed)], RETRY_OUT, Recount(0), RETRY_DONE);
    Advance(1, 3, RESTART + [Return(0, Completed)] + [Recount(0)], RETRY_DONE, Write(2), TAKEN_BACK);
    assert Finished(TAKEN_BACK);
    assert After(1, 3, RESTARTED) == TAKEN_BACK;
  }

  // ------------------------------------------------- one item, no overlap: the recount before the dead letter fails

  const BEGUN1 := Row(RunRunning, 1, 0, 0, 0)

  function One(item: Item, t: Phase, clock: nat): Run { Run(BEGUN1, [item], [t], clock, []) }

  /** The only item succeeds, neither recount of its task does, and the run stays running. */
  lemma UncountedRunCanBeLeftRunning()
    ensures exists events ::
              var s := After(0, 1, events);
              Atomic(events) && Steady(events) && AllEnded(s) && NoneLost(s)
              && s.row.status.RunRunning? && s.items == [OK]
  {
    var s1, s2 := One(BUSY, Processing(1), 1), One(OK, COUNTING, 2);
    var s3, s4 := One(OK, Raised(1, false, true), 3), One(OK, Recounting(1, false, true), 4);
    var s5 := One(OK, Ended(1, false, false), 5);
    var e3 := [] + [Start(0)] + [Return(0, Completed)] + [RecountFails(0, true)];
    var events := e3 + [Decide(0)] + [RecountFails(0, true)];
    assert Step(0, Initial(1), Start(0)) == s1;
    assert Step(0, s1, Return(0, Completed)) == s2;
    assert Step(0, s2, RecountFails(0, true)) == s3;
    assert Step(0, s3, Decide(0)) == s4;
    assert Step(0, s4, RecountFails(0, true)) == s5;
    assert After(0, 1, []) == Initial(1);
    hide After, Step;
    Advance(0, 1, [], Initial(1), Start(0), s1);
    Advance(0, 1, [] + [Start(0)], s1, Return(0, Completed), s2);
    Advance(0, 1, [] + [Start(0)] + [Return(0, Completed)], s2, RecountFails(0, true), s3);
    Advance(0, 1, e3, s3, Decide(0), s4);
    Advance(0, 1, e3 + [Decide(0)], s4, RecountFails(0, true), s5);
    assert Atomic(events) && Steady(events) && AllEnded(s5) && NoneLost(s5);
  }

  // ------------------------------------------------- two items, no retry, no restart: left running

  const EARLY: Recounted := Recounted(0, NewRow(2), [Failed, Pending], 3)
  const FULL: Recounted := Recounted(1, BEGUN2, [Failed, Completed], 6)
  const LOST_START: Item := Item(Failed, 0)
  const WAITING: Phase := Writing(1, false, true, EARLY)

  const EARLY_READ: seq<Event> := [] + [Raise(0, Some(Failed), true)] + [Decide(0)] + [Load(0)] + [Read(0)]
  const EARLY_HELD: Run := Two(NewRow(2), LOST_START, QUEUE, WAITING, Queued(1), 4, [])

  lemma EarlyTargets()
    ensures Settle(NewRow(2), EARLY.read) == Row(RunRunning, 2, 1, 0, 1)
    ensures Settle(BEGUN2, FULL.read) == Row(RunFailed, 2, 2, 1, 1)
  {
    CountTwo(Failed, Pending, Succeeded);
    CountTwo(Failed, Pending, HasFailed);
    CountTwo(Failed, Pending, Open);
    CountTwo(Failed, Completed, Succeeded);
    CountTwo(Failed, Completed, HasFailed);
    CountTwo(Failed, Completed, Open);
    hide Count;
  }

  const EARLY_OUT: Run := Two(NewRow(2), LOST_START, QUEUE, Raised(1, false, true), Queued(1), 1, [])
  const EARLY_CLOSING: Run := Two(NewRow(2), LOST_START, QUEUE, Recounting(1, false, true), Queued(1), 2, [])
  const EARLY_LOADED: Run := Two(NewRow(2), LOST_START, QUEUE, Loaded(1, false, true, NewRow(2)), Queued(1), 3, [])

  lemma EarlySteps()
    ensures Step(0, Initial(2), Raise(0, Some(Failed), true)) == EARLY_OUT && Step(0, EARLY_OUT, Decide(0)) == EARLY_CLOSING
    ensures Step(0, EARLY_CLOSING, Load(0)) == EARLY_LOADED && Step(0, EARLY_LOADED, Read(0)) == EARLY_HELD
  {
    assert Step(0, Initial(2), Raise(0, Some(Failed), true)) == EARLY_OUT;
    assert Step(0, EARLY_OUT, Decide(0)) == EARLY_CLOSING;
    assert Step(0, EARLY_CLOSING, Load(0)) == EARLY_LOADED;
    assert Statuses(EARLY_LOADED.items) == EARLY.read;
    assert Step(0, EARLY_LOADED, Read(0)) == EARLY_HELD;
  }

  /** The first task fails before its start is committed, loads the run as pending and reads. */
  lemma EarlyBegin()
    ensures After(0, 2, EARLY_READ) == EARLY_HELD
  {
    EarlySteps();
    assert After(0, 2, []) == Initial(2);
    hide After, Step;
    Advance(0, 2, [], Initial(2), Raise(0, Some(Failed), true), EARLY_OUT);
    Advance(0, 2, [] + [Raise(0, Some(Failed), true)], EARLY_OUT, Decide(0), EARLY_CLOSING);
    Advance(0, 2, [] + [Raise(0, Some(Failed), true)] + [Decide(0)], EARLY_CLOSING, Load(0), EARLY_LOADED);
    Advance(0, 2, [] + [Raise(0, Some(Failed), true)] + [Decide(0)] + [Load(0)], EARLY_LOADED, Read(0), EARLY_HELD);
  }

  const LATE_BUSY: Run := Two(BEGUN2, LOST_START, BUSY, WAITING, Processing(1), 5, [])
  const LATE_OUT: Run := Two(BEGUN2, LOST_START, OK, WAITING, COUNTING, 6, [])
  const LATE_SETTLED: Run := Two(Row(RunFailed, 2, 2, 1, 1), LOST_START, OK, WAITING, COUNTED, 7, [FULL])
  const LEFT: Run := Two(Row(RunRunning, 2, 1, 1, 1), LOST_START, OK, COUNTED, COUNTED, 8, [FULL, EARLY])

  lemma EarlyEnd()
    ensures Step(0, EARLY_HELD, Start(1)) == LATE_BUSY && Step(0, LATE_BUSY, Return(1, Completed)) == LATE_OUT
    ensures Step(0, LATE_OUT, Recount(1)) == LATE_SETTLED && Step(0, LATE_SETTLED, Write(0)) == LEFT
  {
    assert Step(0, EARLY_HELD, Start(1)) == LATE_BUSY;
    assert Step(0, LATE_BUSY, Return(1, Completed)) == LATE_OUT;
    assert Statuses(LATE_OUT.items) == FULL.read;
    EarlyTargets();
    hide Step, Statuses, Settle;
    RecountStep(0, LATE_OUT, 1);
    WriteNow(0, LATE_SETTLED, 0);
  }

  const EARLY_ALL: seq<Event> := EARLY_READ + [Start(1)] + [Return(1, Completed)] + [Recount(1)] + [Write(0)]

  lemma StartsOnlyOnce()
    ensures StartsOnce(EARLY_ALL)
  {
  }

  /** The second task settles the run; the first, which had loaded it as pending, takes it back to running, for good. */
  lemma EarlyFailureCanLeaveRunning()
    ensures exists events ::
              var s := After(0, 2, events);
              StartsOnce(events) && Finished(s) && s.row.status.RunRunning? && s.items == [LOST_START, OK]
  {
    StartsOnlyOnce();
    EarlyBegin();
    EarlyEnd();
    hide After, Step, StartsOnce;
    Advance(0, 2, EARLY_READ, EARLY_HELD, Start(1), LATE_BUSY);
    Advance(0, 2, EARLY_READ + [Start(1)], LATE_BUSY, Return(1, Completed), LATE_OUT);
    Advance(0, 2, EARLY_READ + [Start(1)] + [Return(1, Completed)], LATE_OUT, Recount(1), LATE_SETTLED);
    Advance(0, 2, EARLY_READ + [Start(1)] + [Return(1, Completed)] + [Recount(1)], LATE_SETTLED, Write(0), LEFT);
    assert Finished(LEFT);
    assert After(0, 2, EARLY_ALL) == LEFT;
  }
}
