/**
  One ingestion run carried out by the pipeline (apps/ingestion/tasks.py with services.py): the items of the run are
  items of sources, and a list of processing stages and recounts is a run of the item tasks.
*/
module RunPipeline {
  import opened Common
  import Breaker
  import R = IngestionRun
  import O = OverlappingRecounts
  import S = SteadyRuns
  import opened Pipeline
  import opened PipelineTheorems

  /** The k-th item of a run is an item of some source. */
  datatype Slot = Slot(source: SourceId, item: nat)

  /**
    The commits of a processing step: its start, and its effect or the handler's. An error in the first commit leaves
    only the handler's.
  */
  datatype Stage = Begins | Ends | FailsEarly

  /**
    What happens next: a stage of the k-th task's processing, a stage of another run's, or something a task does that
    leaves the items alone. definitive tells how the error of a failing step is classified.
  */
  datatype Move =
    | Process(k: nat, job: Job, stage: Stage, definitive: bool)
    | Elsewhere(job: Job, stage: Stage)
    | Task(event: R.Event)

  predicate Quiet(e: R.Event) { !e.Start? && !e.Return? && !e.Raise? }

  function StageIn(policy: Breaker.Policy, w: World, j: Job, stage: Stage): World {
    if !Exists(w, j) then w
    else
      match stage
      case Begins => w.(sources := w.sources[j.source := Begun(w.sources[j.source], j)])
      case Ends => Step(policy, w, j)
      case FailsEarly => w.(sources := w.sources[j.source := Handled(policy, w.sources[j.source], j)])
  }

  predicate InWorld(slot: Slot, w: World) {
    slot.source in w.sources && slot.item < |w.sources[slot.source].items|
  }

  /** What a source's item says. */
  function StatusIn(slot: Slot, w: World): R.ItemStatus {
    if InWorld(slot, w) then w.sources[slot.source].items[slot.item].status else R.Pending
  }

  function StatusesOf(slots: seq<Slot>, w: World): (st: seq<R.ItemStatus>)
    ensures |st| == |slots|
  {
    seq(|slots|, k requires 0 <= k < |slots| => StatusIn(slots[k], w))
  }

  /** The event of the run that a stage amounts to: what it recorded in the item, or that it recorded nothing. */
  function EventOf(policy: Breaker.Policy, w: World, k: nat, j: Job, stage: Stage, definitive: bool): R.Event {
    var status := StatusIn(Slot(j.source, j.item), StageIn(policy, w, j, stage));
    if stage.Begins? then R.Start(k)
    else if stage.Ends? && Exists(w, j) && !EndingOf(w, j).Raises? then R.Return(k, status)
    else R.Raise(k, if j.handler.HandledFully? then Some(status) else None, definitive)
  }

  function EventsOf(policy: Breaker.Policy, w: World, m: Move): seq<R.Event> {
    match m
    case Process(k, j, stage, definitive) => [EventOf(policy, w, k, j, stage, definitive)]
    case Elsewhere(_, _) => []
    case Task(e) => [e]
  }

  function WorldAfter(policy: Breaker.Policy, w: World, m: Move): World {
    match m
    case Process(_, j, stage, _) => StageIn(policy, w, j, stage)
    case Elsewhere(j, stage) => StageIn(policy, w, j, stage)
    case Task(_) => w
  }

  function WorldAfterAll(policy: Breaker.Policy, w: World, moves: seq<Move>): World {
    if moves == [] then w
    else WorldAfter(policy, WorldAfterAll(policy, w, moves[..|moves| - 1]), moves[|moves| - 1])
  }

  /** The events that a list of moves amounts to. */
  function AllEvents(policy: Breaker.Policy, w: World, moves: seq<Move>): seq<R.Event> {
    if moves == [] then []
    else
      var prior := moves[..|moves| - 1];
      AllEvents(policy, w, prior) + EventsOf(policy, WorldAfterAll(policy, w, prior), moves[|moves| - 1])
  }

  function RunAfter(policy: Breaker.Policy, maxRetries: nat, slots: seq<Slot>, w: World, moves: seq<Move>): R.Run {
    R.After(maxRetries, |slots|, AllEvents(policy, w, moves))
  }

  ghost predicate Distinct(slots: seq<Slot>) {
    forall i, j :: 0 <= i < j < |slots| ==> slots[i] != slots[j]
  }

  /** The items of the run are the slots' items. */
  ghost predicate Matches(slots: seq<Slot>, w: World, s: R.Run) {
    |slots| == |s.items| == |s.tasks|
    && forall k :: 0 <= k < |slots| ==> InWorld(slots[k], w) && StatusIn(slots[k], w) == s.items[k].status
  }

  /** A task processes its own item, under its own attempt number, when it is its turn; other runs keep off the slots. */
  ghost predicate Allowed(slots: seq<Slot>, s: R.Run, m: Move) {
    match m
    case Task(e) => Quiet(e)
    case Elsewhere(j, _) => Slot(j.source, j.item) !in slots
    case Process(k, j, stage, _) =>
      k < |slots| == |s.tasks| && slots[k] == Slot(j.source, j.item)
      && s.tasks[k] == if stage.Ends? then R.Processing(j.attempt) else R.Queued(j.attempt)
  }

  ghost predicate AllAllowed(policy: Breaker.Policy, maxRetries: nat, slots: seq<Slot>, w: World, moves: seq<Move>) {
    moves == []
    || (AllAllowed(policy, maxRetries, slots, w, moves[..|moves| - 1])
        && Allowed(slots, RunAfter(policy, maxRetries, slots, w, moves[..|moves| - 1]), moves[|moves| - 1]))
  }

  /** The run starts on different items, all of them pending. */
  ghost predicate FreshSlots(slots: seq<Slot>, w: World) {
    Distinct(slots) && forall k :: 0 <= k < |slots| ==> InWorld(slots[k], w) && StatusIn(slots[k], w).Pending?
  }

  // ------------------------------------------------------------- one stage

  lemma StartDecidesNothing(w: World, j: Job)
    requires Exists(w, j)
    ensures var started := w.(sources := w.sources[j.source := Begun(w.sources[j.source], j)]);
            EndingOf(started, j) == EndingOf(w, j) && Begun(started.sources[j.source], j) == Begun(w.sources[j.source], j)
  {
    assert Begun(Begun(w.sources[j.source], j), j) == Begun(w.sources[j.source], j);
    hide T.CanPublish, PreviousDigest, LatestVersion, PayloadOf, CanAutoPublish;
  }

  /** With nothing in between, start and end are the whole step. */
  lemma BeginThenEnd(policy: Breaker.Policy, w: World, j: Job)
    ensures StageIn(policy, StageIn(policy, w, j, Begins), j, Ends) == Step(policy, w, j)
  {
    if Exists(w, j) {
      StartDecidesNothing(w, j);
      hide Begun, EndingOf, Handled, Completed, SetItem, DocumentsAfter, T.Publish;
      assert StageIn(policy, w, j, Begins).versions == w.versions && StageIn(policy, w, j, Begins).documents == w.documents;
    }
  }

  lemma StageTouchesOneItem(policy: Breaker.Policy, w: World, j: Job, stage: Stage, slot: Slot)
    requires InWorld(slot, w)
    ensures InWorld(slot, StageIn(policy, w, j, stage))
    ensures slot != Slot(j.source, j.item) ==> StatusIn(slot, StageIn(policy, w, j, stage)) == StatusIn(slot, w)
  {
    if Exists(w, j) {
      StepIsAnAttempt(policy, w, j);
      StepUpdatesOneItem(policy, w, j);
      hide Step, EndingOf, Breaker.Fail;
    }
  }

  /** What a stage leaves in its item. */
  lemma StageReports(policy: Breaker.Policy, w: World, j: Job, stage: Stage)
    requires Exists(w, j)
    ensures var status := StatusIn(Slot(j.source, j.item), StageIn(policy, w, j, stage));
            match stage
            case Begins => status.Running?
            case FailsEarly => if j.handler.HandledFully? then R.Handles(Some(status))
                               else status == StatusIn(Slot(j.source, j.item), w)
            case Ends => if !EndingOf(w, j).Raises? then R.Returns(status)
                         else if j.handler.HandledFully? then R.Handles(Some(status)) else status.Running?
  {
    if stage.Ends? {
      StepReportsToItsRun(policy, w, j);
      StageTouchesOneItem(policy, w, j, stage, Slot(j.source, j.item));
    }
    hide Step, EndingOf, Breaker.Fail;
  }

  lemma QuietLeavesItems(maxRetries: nat, s: R.Run, e: R.Event)
    requires |s.items| == |s.tasks| && Quiet(e)
    ensures R.Step(maxRetries, s, e).items == s.items
  {
    hide R.Settle, R.Merged, R.Statuses;
  }

  lemma AfterOneMore(maxRetries: nat, n: nat, events: seq<R.Event>, e: R.Event)
    ensures R.After(maxRetries, n, events + [e]) == R.Step(maxRetries, R.After(maxRetries, n, events), e)
  {
    assert (events + [e])[..|events|] == events;
  }

  /** What an event of the k-th task leaves in the items. */
  lemma OneEvent(maxRetries: nat, s: R.Run, k: nat, e: R.Event)
    requires k < |s.items| == |s.tasks| && e.i == k
    requires (e.Start? && s.tasks[k].Queued?) || (e.Return? && s.tasks[k].Processing? && R.Returns(e.status))
             || (e.Raise? && (s.tasks[k].Queued? || s.tasks[k].Processing?) && R.Handles(e.recorded))
    ensures var items := R.Step(maxRetries, s, e).items;
            |items| == |s.items| && (forall i :: 0 <= i < |items| && i != k ==> items[i] == s.items[i])
            && items[k].status == if e.Start? then R.Running else if e.Return? then e.status
                                  else if e.recorded.Some? then e.recorded.value else s.items[k].status
  {
    hide R.Settle, R.Merged, R.Statuses;
  }

  lemma ProcessMatches(policy: Breaker.Policy, maxRetries: nat, slots: seq<Slot>, w: World, s: R.Run,
                       k: nat, j: Job, stage: Stage, definitive: bool)
    requires Distinct(slots) && Matches(slots, w, s) && R.PhasesFit(maxRetries, s)
    requires Allowed(slots, s, Process(k, j, stage, definitive))
    ensures Matches(slots, StageIn(policy, w, j, stage), R.Step(maxRetries, s, EventOf(policy, w, k, j, stage, definitive)))
  {
    var e, w' := EventOf(policy, w, k, j, stage, definitive), StageIn(policy, w, j, stage);
    assert InWorld(slots[k], w) && R.PhaseFits(maxRetries, |s.items|, s.items[k], s.tasks[k]);
    StageReports(policy, w, j, stage);
    hide StageIn, EndingOf, Distinct;
    OneEvent(maxRetries, s, k, e);
    hide R.Step;
    forall i | 0 <= i < |slots|
      ensures InWorld(slots[i], w') && (i != k ==> StatusIn(slots[i], w') == StatusIn(slots[i], w))
    {
      StageTouchesOneItem(policy, w, j, stage, slots[i]);
      if i != k {
        SlotsDiffer(slots, i, k);
      }
    }
  }

  lemma SlotsDiffer(slots: seq<Slot>, i: nat, j: nat)
    requires Distinct(slots) && i < |slots| && j < |slots| && i != j
    ensures slots[i] != slots[j]
  {
  }

  lemma MoveMatches(policy: Breaker.Policy, maxRetries: nat, slots: seq<Slot>, w: World, events: seq<R.Event>, m: Move)
    requires Distinct(slots) && Matches(slots, w, R.After(maxRetries, |slots|, events))
    requires Allowed(slots, R.After(maxRetries, |slots|, events), m)
    ensures Matches(slots, WorldAfter(policy, w, m), R.After(maxRetries, |slots|, events + EventsOf(policy, w, m)))
  {
    var s := R.After(maxRetries, |slots|, events);
    match m {
      case Process(k, j, stage, definitive) =>
        AfterOneMore(maxRetries, |slots|, events, EventOf(policy, w, k, j, stage, definitive));
        R.AfterKeepsPhases(maxRetries, |slots|, events);
        hide R.After, EventOf, StageIn;
        ProcessMatches(policy, maxRetries, slots, w, s, k, j, stage, definitive);
      case Elsewhere(j, stage) =>
        assert events + [] == events;
        hide R.After, StageIn;
        forall k | 0 <= k < |slots|
          ensures InWorld(slots[k], WorldAfter(policy, w, m))
          ensures StatusIn(slots[k], WorldAfter(policy, w, m)) == StatusIn(slots[k], w)
        {
          StageTouchesOneItem(policy, w, j, stage, slots[k]);
        }
      case Task(e) =>
        AfterOneMore(maxRetries, |slots|, events, e);
        QuietLeavesItems(maxRetries, s, e);
    }
  }

  /** Whatever the moves, the items of the run and the items of the sources agree. */
  lemma {:induction false} MovesMatch(policy: Breaker.Policy, maxRetries: nat, slots: seq<Slot>, w: World, moves: seq<Move>)
    requires FreshSlots(slots, w) && AllAllowed(policy, maxRetries, slots, w, moves)
    ensures Matches(slots, WorldAfterAll(policy, w, moves), RunAfter(policy, maxRetries, slots, w, moves))
  {
    if moves != [] {
      var prior := moves[..|moves| - 1];
      MovesMatch(policy, maxRetries, slots, w, prior);
      hide R.After, Matches, Distinct, Allowed, WorldAfter, EventsOf;
      MoveMatches(policy, maxRetries, slots, WorldAfterAll(policy, w, prior), AllEvents(policy, w, prior), moves[|moves| - 1]);
    }
  }

  lemma StatusesMatch(slots: seq<Slot>, w: World, s: R.Run)
    requires Matches(slots, w, s)
    ensures R.Statuses(s.items) == StatusesOf(slots, w)
  {
  }

  // ------------------------------------------------------------- what the row tells

  lemma {:induction false} AllowedSoFar(policy: Breaker.Policy, maxRetries: nat, slots: seq<Slot>, w: World,
                                        moves: seq<Move>, p: nat)
    requires AllAllowed(policy, maxRetries, slots, w, moves) && p <= |moves|
    ensures AllAllowed(policy, maxRetries, slots, w, moves[..p])
  {
    hide Allowed, RunAfter;
    if p == |moves| {
      assert moves[..p] == moves;
    } else {
      AllowedSoFar(policy, maxRetries, slots, w, moves[..|moves| - 1], p);
      assert moves[..|moves| - 1][..p] == moves[..p];
    }
  }

  /** After every number of events some of the moves had been made, and no other. */
  lemma {:induction false} MovesSoFar(policy: Breaker.Policy, w: World, moves: seq<Move>, at: nat) returns (p: nat)
    requires at <= |AllEvents(policy, w, moves)|
    ensures p <= |moves| && AllEvents(policy, w, moves[..p]) == AllEvents(policy, w, moves)[..at]
  {
    EventsGrow(policy, w, moves);
    hide AllEvents;
    var all := AllEvents(policy, w, moves);
    if at == |all| {
      p := |moves|;
      assert moves[..p] == moves && all[..at] == all;
    } else {
      var prior := moves[..|moves| - 1];
      p := MovesSoFar(policy, w, prior, at);
      assert prior[..p] == moves[..p];
      assert all[..at] == AllEvents(policy, w, prior)[..at];
    }
  }

  lemma EventsGrow(policy: Breaker.Policy, w: World, moves: seq<Move>)
    ensures moves == [] ==> AllEvents(policy, w, moves) == []
    ensures moves != [] ==> AllEvents(policy, w, moves[..|moves| - 1]) <= AllEvents(policy, w, moves)
                            && |AllEvents(policy, w, moves)| <= |AllEvents(policy, w, moves[..|moves| - 1])| + 1
  {
    hide WorldAfterAll, EventOf;
  }

  /**
    However recounts overlap with each other and with processing: each column of the row is what the sources' items
    amounted to after some first moves, namely when the last recount that changed it read them; before any such recount
    the counters are zero and the run is not settled.
  */
  lemma RowFollowsTheSources(policy: Breaker.Policy, maxRetries: nat, slots: seq<Slot>, w: World, moves: seq<Move>, c: O.Column)
    requires FreshSlots(slots, w) && AllAllowed(policy, maxRetries, slots, w, moves)
    ensures var s := RunAfter(policy, maxRetries, slots, w, moves);
            match O.LastChange(s.log, c)
            case None => if c.StatusColumn? then !R.Settled(s.row) else O.Value(s.row, c) == 0
            case Some(e) =>
              exists p :: 0 <= p <= |moves| && |AllEvents(policy, w, moves[..p])| == e.at
                          && O.Value(s.row, c)
                             == O.Value(R.Settle(s.row, StatusesOf(slots, WorldAfterAll(policy, w, moves[..p]))), c)
  {
    var events, n := AllEvents(policy, w, moves), |slots|;
    var s := RunAfter(policy, maxRetries, slots, w, moves);
    O.ColumnsFollowTheirLastChange(maxRetries, n, events, c);
    O.LastChangeWasSeen(maxRetries, n, events, c);
    var last := O.LastChange(s.log, c);
    if last.Some? {
      var at := last.value.at;
      var p := MovesSoFar(policy, w, moves, at);
      AllowedSoFar(policy, maxRetries, slots, w, moves, p);
      MovesMatch(policy, maxRetries, slots, w, moves[..p]);
      hide R.After, R.Settle, WorldAfterAll, AllAllowed, Distinct, O.LastChange;
      StatusesMatch(slots, WorldAfterAll(policy, w, moves[..p]), R.After(maxRetries, n, events[..at]));
    }
  }

  /** The row says how the run ended, and rightly: nothing is open, and it is completed exactly if all items succeeded. */
  ghost predicate TellsTheOutcome(slots: seq<Slot>, w: World, row: R.Row) {
    R.Settled(row) && R.NoneOpen(StatusesOf(slots, w))
    && (row.status.RunCompleted? <==> forall k :: 0 <= k < |slots| ==> R.Succeeded(StatusIn(slots[k], w)))
  }

  /** Without retries, a row that is settled at any moment tells what became of the sources' items. */
  lemma SettledRowTellsTheOutcome(policy: Breaker.Policy, slots: seq<Slot>, w: World, moves: seq<Move>)
    requires FreshSlots(slots, w) && AllAllowed(policy, 0, slots, w, moves)
    ensures var s := RunAfter(policy, 0, slots, w, moves);
            R.Settled(s.row) ==> TellsTheOutcome(slots, WorldAfterAll(policy, w, moves), s.row)
  {
    var w', s := WorldAfterAll(policy, w, moves), RunAfter(policy, 0, slots, w, moves);
    S.SettledIsExactWithoutRetries(|slots|, AllEvents(policy, w, moves));
    MovesMatch(policy, 0, slots, w, moves);
    hide R.After, WorldAfterAll, AllAllowed, Distinct;
    StatusesMatch(slots, w', s);
  }

  ghost predicate NoneFailsEarly(moves: seq<Move>) {
    forall k :: 0 <= k < |moves| && moves[k].Process? ==> !moves[k].stage.FailsEarly?
  }

  /** Each task that has left the queue has started once, and none other has started. */
  ghost predicate StartedAre(events: seq<R.Event>, s: R.Run) {
    S.Steady(events) && forall i :: 0 <= i < |s.tasks| ==> (S.StartedIn(events, i) <==> !s.tasks[i].Queued?)
  }

  lemma SteadyWithOneMore(events: seq<R.Event>, e: R.Event)
    requires S.Steady(events)
    requires e.Start? ==> !S.StartedIn(events, e.i)
    requires e.Raise? ==> S.StartedIn(events, e.i)
    ensures S.Steady(events + [e])
  {
    var all := events + [e];
    assert all[..|events|] == events;
    forall k | 0 <= k < |all| && all[k].Raise?
      ensures S.StartedIn(all[..k], all[k].i)
    {
      assert all[..k] == events[..k];
    }
  }

  /** With one try each, a task leaves the queue by its start and does not come back. */
  lemma QueueIsLeftByStarting(s: R.Run, e: R.Event, i: nat)
    requires R.PhasesFit(0, s) && i < |s.tasks|
    requires e.Raise? && e.i < |s.tasks| ==> s.tasks[e.i].Processing?
    ensures var s' := R.Step(0, s, e);
            s'.tasks[i].Queued? <==> s.tasks[i].Queued? && e != R.Start(i)
  {
    assert R.PhaseFits(0, |s.items|, s.items[i], s.tasks[i]);
    hide R.Settle, R.Merged, R.Statuses;
  }

  lemma StartedWithOneMore(n: nat, events: seq<R.Event>, e: R.Event)
    requires StartedAre(events, R.After(0, n, events))
    requires e.Start? ==> e.i < n && R.After(0, n, events).tasks[e.i].Queued?
    requires e.Raise? ==> e.i < n && R.After(0, n, events).tasks[e.i].Processing?
    ensures StartedAre(events + [e], R.After(0, n, events + [e]))
  {
    var s, s' := R.After(0, n, events), R.After(0, n, events + [e]);
    AfterOneMore(0, n, events, e);
    R.AfterKeepsPhases(0, n, events);
    hide R.After, S.Steady, R.PhasesFit, R.Step, S.StartedIn;
    SteadyWithOneMore(events, e);
    forall i | 0 <= i < n
      ensures S.StartedIn(events + [e], i) <==> !s'.tasks[i].Queued?
    {
      QueueIsLeftByStarting(s, e, i);
      S.StartedByNow(events + [e], i);
      assert (events + [e])[..|events|] == events;
    }
  }

  /** Moves with one try each, none failing before its start is committed, make a steady run. */
  lemma {:induction false} SingleTriesAreSteady(policy: Breaker.Policy, slots: seq<Slot>, w: World, moves: seq<Move>)
    requires AllAllowed(policy, 0, slots, w, moves) && NoneFailsEarly(moves)
    ensures StartedAre(AllEvents(policy, w, moves), RunAfter(policy, 0, slots, w, moves))
  {
    if moves != [] {
      var prior, m := moves[..|moves| - 1], moves[|moves| - 1];
      SingleTriesAreSteady(policy, slots, w, prior);
      var events, w' := AllEvents(policy, w, prior), WorldAfterAll(policy, w, prior);
      hide R.After, StartedAre, WorldAfter, StageIn;
      match m {
        case Elsewhere(_, _) => assert events + [] == events;
        case Task(e) => StartedWithOneMore(|slots|, events, e);
        case Process(k, j, stage, definitive) =>
          StartedWithOneMore(|slots|, events, EventOf(policy, w', k, j, stage, definitive));
      }
    }
  }

  /**
    A whole run with one try per task and recounts overlapping at will, none failing before its start is committed:
    once every task has ended with its recount and every outcome is recorded, the row tells the outcome.
  */
  lemma SingleTriesTellTheOutcome(policy: Breaker.Policy, slots: seq<Slot>, w: World, moves: seq<Move>)
    requires slots != [] && FreshSlots(slots, w) && AllAllowed(policy, 0, slots, w, moves) && NoneFailsEarly(moves)
    requires R.Finished(RunAfter(policy, 0, slots, w, moves))
    ensures TellsTheOutcome(slots, WorldAfterAll(policy, w, moves), RunAfter(policy, 0, slots, w, moves).row)
  {
    SingleTriesAreSteady(policy, slots, w, moves);
    S.NeverLeftRunning(0, |slots|, AllEvents(policy, w, moves));
    SettledRowTellsTheOutcome(policy, slots, w, moves);
  }

  /**
    With retries and undivided recounts, once every task has ended: the whole row is an accurate count of what the
    pipeline left in the sources' items, and completed exactly if all of them succeeded, or some task's last recount
    failed.
  */
  lemma RowTellsTheOutcome(policy: Breaker.Policy, maxRetries: nat, slots: seq<Slot>, w: World, moves: seq<Move>)
    requires slots != [] && FreshSlots(slots, w) && AllAllowed(policy, maxRetries, slots, w, moves)
    requires R.Atomic(AllEvents(policy, w, moves)) && R.AllEnded(RunAfter(policy, maxRetries, slots, w, moves))
    ensures var s, w' := RunAfter(policy, maxRetries, slots, w, moves), WorldAfterAll(policy, w, moves);
            (s.row == R.Settle(s.row, StatusesOf(slots, w'))
             && (s.row.status.RunCompleted? <==> forall k :: 0 <= k < |slots| ==> R.Succeeded(StatusIn(slots[k], w'))))
            || exists i :: 0 <= i < |s.tasks| && !s.tasks[i].counted
  {
    var s, w' := RunAfter(policy, maxRetries, slots, w, moves), WorldAfterAll(policy, w, moves);
    R.RunSettles(maxRetries, |slots|, AllEvents(policy, w, moves));
    MovesMatch(policy, maxRetries, slots, w, moves);
    hide R.After, WorldAfterAll, AllAllowed, Distinct, R.Settle;
    StatusesMatch(slots, w', s);
  }
}
