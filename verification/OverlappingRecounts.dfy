/**
  Recounts that overlap (finalize_run in apps/ingestion/services.py): each loads the run, then reads the items, then
  commits the columns it changed, with other tasks in between. What the row then says, column by column.
*/
module OverlappingRecounts {
  import opened Common
  import opened IngestionRun

  datatype Column = StatusColumn | ProcessedColumn | SuccessColumn | FailedColumn

  function StatusCode(s: RunStatus): int {
    match s case RunPending => 0 case RunRunning => 1 case RunCompleted => 2 case RunFailed => 3
  }

  function Value(r: Row, c: Column): int {
    match c
    case StatusColumn => StatusCode(r.status)
    case ProcessedColumn => r.processed
    case SuccessColumn => r.success
    case FailedColumn => r.failed
  }

  /** A recount changes a column when it leaves another value there than it had loaded. */
  predicate Changes(e: Recounted, c: Column) { Value(Target(e), c) != Value(e.row, c) }

  /** The last committed recount that changed a column. */
  function LastChange(log: seq<Recounted>, c: Column): (e: Option<Recounted>)
    ensures e.Some? ==> e.value in log && Changes(e.value, c)
    ensures e.None? ==> forall k :: 0 <= k < |log| ==> !Changes(log[k], c)
  {
    if log == [] then None
    else if Changes(log[|log| - 1], c) then Some(log[|log| - 1])
    else LastChange(log[..|log| - 1], c)
  }

  lemma LastChangeOfLonger(log: seq<Recounted>, e: Recounted, c: Column)
    ensures LastChange(log + [e], c) == if Changes(e, c) then Some(e) else LastChange(log, c)
  {
    assert (log + [e])[..|log|] == log;
  }

  lemma MergedColumn(stored: Row, e: Recounted, c: Column)
    ensures Value(Merged(stored, e.row, Target(e)), c) == if Changes(e, c) then Value(Target(e), c) else Value(stored, c)
  {
    hide Settle;
  }

  // ------------------------------------------------- each column follows its last change

  /** A value that a column has before any recount changes it. */
  predicate Untouched(r: Row, c: Column) {
    if c.StatusColumn? then r.status.RunPending? || r.status.RunRunning? else Value(r, c) == 0
  }

  ghost predicate RowFits(s: Run) {
    forall c :: match LastChange(s.log, c)
      case None => Untouched(s.row, c)
      case Some(e) => Value(s.row, c) == Value(Target(e), c)
  }

  /** Rows loaded earlier: untouched columns were so then, and the run never goes back to pending. */
  ghost predicate HeldFits(s: Run, held: Row) {
    held.total == s.row.total && (s.row.status.RunPending? ==> held.status.RunPending?)
    && forall c :: LastChange(s.log, c).None? ==> Untouched(held, c)
  }

  /** The rows a task holds. */
  predicate Holds(t: Phase, held: Row) {
    (t.Loaded? && t.row == held) || (t.Writing? && t.recount.row == held)
  }

  ghost predicate AllHeldFit(s: Run) {
    (forall i, held :: 0 <= i < |s.tasks| && Holds(s.tasks[i], held) ==> HeldFits(s, held))
    && (forall k :: 0 <= k < |s.log| ==> HeldFits(s, s.log[k].row))
  }

  lemma TargetIsSettled(e: Recounted)
    ensures !Target(e).status.RunPending? && Target(e).total == e.row.total
  {
  }

  /** What a task that commits its recount now had read. */
  function Committing(s: Run, i: nat): Recounted
    requires i < |s.items| == |s.tasks|
  {
    if s.tasks[i].Writing? then s.tasks[i].recount else Recounted(i, s.row, Statuses(s.items), s.clock)
  }

  /** What a step does to the row, the log and the recounts in progress. */
  lemma StepInShort(maxRetries: nat, s: Run, event: Event)
    requires |s.items| == |s.tasks| && event.i < |s.tasks|
    ensures var s', i := Step(maxRetries, s, event), event.i;
            var t, t' := s.tasks[i], s'.tasks[i];
            (forall j :: 0 <= j < |s.tasks| && j != i ==> s'.tasks[j] == s.tasks[j] && s'.items[j] == s.items[j])
            && (if s'.log == s.log then
                  s'.row == s.row || (s.row.status.RunPending? && s'.row == s.row.(status := RunRunning))
                else
                  var e := Committing(s, i);
                  (t.Writing? || t.Recounting?) && t' == Ended(t.attempt, t.lost, true) && s'.items == s.items
                  && s'.log == s.log + [e] && s'.row == Merged(s.row, e.row, Target(e)))
            && (t'.Loaded? ==> t' == t || (t.Recounting? && t' == Loaded(t.attempt, t.lost, t.closing, s.row)))
            && (t'.Writing? ==> t' == t || (t.Loaded? && t'.lost == t.lost
                                            && t'.recount == Recounted(i, t.row, Statuses(s.items), s.clock)))
            && (t.Ended? ==> t' == t && s'.items == s.items)
            && (t'.Ended? && t'.counted && s'.log == s.log ==> t' == t)
            && ((t'.Loaded? || t'.Writing?) ==> s'.items == s.items)
  {
    hide Settle, Merged, Statuses;
    var s', i := Step(maxRetries, s, event), event.i;
    forall j | 0 <= j < |s.tasks| && j != i
      ensures s'.tasks[j] == s.tasks[j] && s'.items[j] == s.items[j]
    {
      EffectIsLocal(maxRetries, s, event, j);
    }
    if s.tasks[i].Recounting? {
      RecountNow(s, i);
      MergedWithLoaded(s.row, Statuses(s.items));
    }
  }

  /** A commit that leaves the log alone moves the row only from pending to running. */
  lemma QuietStepKeepsRows(s: Run, s': Run)
    requires RowFits(s) && AllHeldFit(s) && s'.log == s.log
    requires s'.row == s.row || (s.row.status.RunPending? && s'.row == s.row.(status := RunRunning))
    requires |s'.tasks| == |s.tasks|
    requires forall i, held :: 0 <= i < |s.tasks| && Holds(s'.tasks[i], held) ==> Holds(s.tasks[i], held) || held == s.row
    ensures RowFits(s') && AllHeldFit(s')
  {
    hide LastChange, Changes;
    forall c
      ensures match LastChange(s'.log, c) case None => Untouched(s'.row, c) case Some(e) => Value(s'.row, c) == Value(Target(e), c)
    {
      if LastChange(s.log, c).Some? {
        TargetIsSettled(LastChange(s.log, c).value);
      }
    }
    hide Untouched;
    forall held | HeldFits(s, held)
      ensures HeldFits(s', held)
    {
    }
    assert HeldFits(s, s.row);
  }

  lemma WriteKeepsRows(s: Run, e: Recounted, s': Run)
    requires RowFits(s) && AllHeldFit(s) && HeldFits(s, e.row)
    requires s'.log == s.log + [e] && s'.row == Merged(s.row, e.row, Target(e)) && |s'.tasks| == |s.tasks|
    requires forall i, held :: 0 <= i < |s.tasks| && Holds(s'.tasks[i], held) ==> Holds(s.tasks[i], held)
    ensures RowFits(s') && AllHeldFit(s')
  {
    forall c
      ensures match LastChange(s'.log, c) case None => Untouched(s'.row, c) case Some(l) => Value(s'.row, c) == Value(Target(l), c)
      ensures LastChange(s'.log, c).None? ==> LastChange(s.log, c).None?
    {
      LastChangeOfLonger(s.log, e, c);
      MergedColumn(s.row, e, c);
      hide LastChange, Merged, Target, Changes;
      assert match LastChange(s.log, c) case None => Untouched(s.row, c) case Some(l) => Value(s.row, c) == Value(Target(l), c);
      assert c.StatusColumn? ==> (Untouched(s'.row, c) <==> Value(s'.row, c) == 0 || Value(s'.row, c) == 1);
      assert c.StatusColumn? ==> (Untouched(s.row, c) <==> Value(s.row, c) == 0 || Value(s.row, c) == 1);
    }
    TargetIsSettled(e);
    hide LastChange, Target, Untouched;
    forall held | HeldFits(s, held)
      ensures HeldFits(s', held)
    {
    }
  }

  lemma StepKeepsRows(maxRetries: nat, s: Run, event: Event)
    requires |s.items| == |s.tasks| && RowFits(s) && AllHeldFit(s)
    ensures RowFits(Step(maxRetries, s, event)) && AllHeldFit(Step(maxRetries, s, event))
  {
    var s' := Step(maxRetries, s, event);
    if event.i >= |s.tasks| {
      QuietStepKeepsRows(s, s');
    } else {
      StepInShort(maxRetries, s, event);
      HeldNow(s);
      hide RowFits, HeldFits, Statuses, Step, Merged, Target;
      if s'.log == s.log {
        QuietStepKeepsRows(s, s');
      } else {
        var e := Committing(s, event.i);
        assert s.tasks[event.i].Writing? ==> Holds(s.tasks[event.i], e.row);
        WriteKeepsRows(s, e, s');
      }
    }
  }

  lemma MergedWithLoaded(row: Row, statuses: seq<ItemStatus>)
    ensures Merged(row, row, Settle(row, statuses)) == Settle(row, statuses)
  {
  }

  lemma HeldNow(s: Run)
    requires RowFits(s)
    ensures HeldFits(s, s.row)
  {
    hide LastChange, Untouched;
  }

  lemma {:induction false} RowsFit(maxRetries: nat, n: nat, events: seq<Event>)
    ensures RowFits(After(maxRetries, n, events)) && AllHeldFit(After(maxRetries, n, events))
  {
    if events != [] {
      RowsFit(maxRetries, n, events[..|events| - 1]);
      hide RowFits, AllHeldFit, Step;
      StepKeepsRows(maxRetries, After(maxRetries, n, events[..|events| - 1]), events[|events| - 1]);
    }
  }

  // ------------------------------------------------- what a recount read, and when

  /** A recount's read is stamped with the moment it was made. */
  ghost predicate Stamped(maxRetries: nat, n: nat, events: seq<Event>, e: Recounted) {
    e.at < |events| && e.task < n && e.read == StatusesAt(maxRetries, n, events, e.at)
  }

  lemma StampedLater(maxRetries: nat, n: nat, events: seq<Event>, e: Recounted)
    requires events != [] && Stamped(maxRetries, n, events[..|events| - 1], e)
    ensures Stamped(maxRetries, n, events, e)
  {
    assert events[..|events| - 1][..e.at] == events[..e.at];
  }

  ghost predicate AllStamped(maxRetries: nat, n: nat, events: seq<Event>, s: Run) {
    (forall k :: 0 <= k < |s.log| ==> Stamped(maxRetries, n, events, s.log[k]))
    && (forall i :: 0 <= i < |s.tasks| && s.tasks[i].Writing? ==> Stamped(maxRetries, n, events, s.tasks[i].recount))
  }

  lemma StampsLast(maxRetries: nat, n: nat, events: seq<Event>, s: Run)
    requires events != [] && AllStamped(maxRetries, n, events[..|events| - 1], s)
    ensures AllStamped(maxRetries, n, events, s)
  {
    forall e | Stamped(maxRetries, n, events[..|events| - 1], e)
      ensures Stamped(maxRetries, n, events, e)
    {
      StampedLater(maxRetries, n, events, e);
    }
    hide Stamped;
  }

  lemma StepStamps(maxRetries: nat, n: nat, events: seq<Event>, s: Run)
    requires events != [] && AllStamped(maxRetries, n, events, s) && s == After(maxRetries, n, events[..|events| - 1])
    ensures AllStamped(maxRetries, n, events, Step(maxRetries, s, events[|events| - 1]))
  {
    var event := events[|events| - 1];
    assert s.clock == |events| - 1 && |s.items| == |s.tasks| == n;
    hide After, Stamped, Statuses;
    if event.i < n {
      NewStamp(maxRetries, n, events, Recounted(event.i, s.row, Statuses(s.items), s.clock));
      if s.tasks[event.i].Loaded? {
        NewStamp(maxRetries, n, events, Recounted(event.i, s.tasks[event.i].row, Statuses(s.items), s.clock));
      }
      StepInShort(maxRetries, s, event);
      hide Step;
    }
  }

  lemma {:induction false} StampsAreTrue(maxRetries: nat, n: nat, events: seq<Event>)
    ensures AllStamped(maxRetries, n, events, After(maxRetries, n, events))
  {
    if events != [] {
      var prior := events[..|events| - 1];
      StampsAreTrue(maxRetries, n, prior);
      StampsLast(maxRetries, n, events, After(maxRetries, n, prior));
      hide AllStamped, Step;
      StepStamps(maxRetries, n, events, After(maxRetries, n, prior));
    }
  }

  lemma NewStamp(maxRetries: nat, n: nat, events: seq<Event>, e: Recounted)
    requires events != [] && e.task < n && e.at == |events| - 1
    requires e.read == Statuses(After(maxRetries, n, events[..|events| - 1]).items)
    ensures Stamped(maxRetries, n, events, e)
  {
  }

  /** What the last recount that changed a column had read, at the event where it read it. */
  ghost function SeenAtLastChange(maxRetries: nat, n: nat, events: seq<Event>, c: Column): Option<seq<ItemStatus>> {
    var last := LastChange(After(maxRetries, n, events).log, c);
    if last.Some? && last.value.at < |events| then Some(StatusesAt(maxRetries, n, events, last.value.at)) else None
  }

  lemma LastChangeWasSeen(maxRetries: nat, n: nat, events: seq<Event>, c: Column)
    ensures var last := LastChange(After(maxRetries, n, events).log, c);
            last.Some? ==> Stamped(maxRetries, n, events, last.value)
                           && SeenAtLastChange(maxRetries, n, events, c) == Some(last.value.read)
  {
    var s := After(maxRetries, n, events);
    StampsAreTrue(maxRetries, n, events);
    hide After, LastChange;
    var last := LastChange(s.log, c);
    if last.Some? {
      assert exists k :: 0 <= k < |s.log| && s.log[k] == last.value;
    }
  }

  /** The run leaves pending with its first attempt, and a column that no recount changed was never settled. */
  ghost predicate StartFits(s: Run) {
    (s.row.status.RunPending? ==> forall i :: 0 <= i < |s.items| ==> s.items[i].attempt == 0)
    && ((exists k :: 0 <= k < |s.log| && Changes(s.log[k], StatusColumn))
        || (s.row.status.RunPending? <==> forall i :: 0 <= i < |s.items| ==> s.items[i].attempt == 0))
  }

  lemma StepKeepsStartFits(maxRetries: nat, s: Run, event: Event)
    requires PhasesFit(maxRetries, s) && StartFits(s)
    ensures StartFits(Step(maxRetries, s, event))
  {
    var s' := Step(maxRetries, s, event);
    if event.i < |s.tasks| {
      var i := event.i;
      assert PhaseFits(maxRetries, |s.items|, s.items[i], s.tasks[i]);
      StepInShort(maxRetries, s, event);
      AttemptsStart(maxRetries, s, event);
      hide Step, Merged, Target, Changes, Statuses, PhasesFit;
      if s'.log != s.log {
        CommitKeepsStart(s, s', Committing(s, i));
      }
    }
  }

  /** Without a start the pending run stays pending and no attempt is counted. */
  lemma AttemptsStart(maxRetries: nat, s: Run, event: Event)
    requires |s.items| == |s.tasks| && event.i < |s.tasks| && s.tasks[event.i].attempt >= 1
    ensures var s', i := Step(maxRetries, s, event), event.i;
            (s'.items[i].attempt == s.items[i].attempt && (s'.log == s.log ==> s'.row == s.row))
            || (s'.items[i].attempt >= 1 && !s'.row.status.RunPending? && s'.log == s.log)
  {
    hide Settle, Merged, Statuses;
  }

  lemma CommitKeepsStart(s: Run, s': Run, e: Recounted)
    requires StartFits(s) && s'.items == s.items && s'.log == s.log + [e] && s'.row == Merged(s.row, e.row, Target(e))
    ensures StartFits(s')
  {
    MergedColumn(s.row, e, StatusColumn);
    TargetIsSettled(e);
    assert s'.log[|s.log|] == e;
    assert forall k :: 0 <= k < |s.log| ==> s'.log[k] == s.log[k];
    hide Changes, Merged, Target;
    assert Value(s'.row, StatusColumn) == 0 <==> s'.row.status.RunPending?;
    assert Value(s.row, StatusColumn) == 0 <==> s.row.status.RunPending?;
  }

  lemma {:induction false} AlwaysStartFits(maxRetries: nat, n: nat, events: seq<Event>)
    ensures StartFits(After(maxRetries, n, events))
  {
    if events != [] {
      AlwaysStartFits(maxRetries, n, events[..|events| - 1]);
      AfterKeepsPhases(maxRetries, n, events[..|events| - 1]);
      hide StartFits, Step;
      StepKeepsStartFits(maxRetries, After(maxRetries, n, events[..|events| - 1]), events[|events| - 1]);
    }
  }

  /** Whether any attempt has started. */
  ghost predicate AnyStarted(s: Run) { exists i :: 0 <= i < |s.items| && s.items[i].attempt > 0 }

  /**
    In every interleaving a column holds what the last recount that changed it had read, at the event where it read
    it; before any such recount the counters are zero, and the run is pending until its first attempt starts.
  */
  lemma ColumnsFollowTheirLastChange(maxRetries: nat, n: nat, events: seq<Event>, c: Column)
    ensures var s := After(maxRetries, n, events);
            match SeenAtLastChange(maxRetries, n, events, c)
            case Some(read) => Value(s.row, c) == Value(Settle(s.row, read), c)
            case None =>
              if c.StatusColumn? then s.row.status == if AnyStarted(s) then RunRunning else RunPending
              else Value(s.row, c) == 0
  {
    var s := After(maxRetries, n, events);
    RowsFit(maxRetries, n, events);
    AlwaysStartFits(maxRetries, n, events);
    LastChangeWasSeen(maxRetries, n, events, c);
    hide After, Settle, StatusesAt, Changes, Target;
    var last := LastChange(s.log, c);
    match last {
      case Some(e) =>
        SettleIgnoresTheRow(s.row, e.row, e.read, c);
        assert Value(s.row, c) == Value(Target(e), c);
        assert Target(e) == Settle(e.row, e.read) by { TargetIs(e); }
      case None =>
        assert Untouched(s.row, c);
    }
  }

  lemma TargetIs(e: Recounted)
    ensures Target(e) == Settle(e.row, e.read)
  {
  }

  lemma SettleIgnoresTheRow(r: Row, q: Row, statuses: seq<ItemStatus>, c: Column)
    ensures Value(Settle(r, statuses), c) == Value(Settle(q, statuses), c)
  {
  }

  // ------------------------------------------------- some recount sees the final items

  /** A task whose recount is still to come, or has just read what the items now say. */
  ghost predicate CanBeFresh(s: Run, t: Phase) {
    !t.Ended? && (t.Writing? ==> t.recount.read == Statuses(s.items))
  }

  ghost predicate SomeFresh(s: Run) {
    (exists i :: 0 <= i < |s.tasks| && CanBeFresh(s, s.tasks[i]))
    || (exists k :: 0 <= k < |s.log| && s.log[k].read == Statuses(s.items))
    || (exists i :: 0 <= i < |s.tasks| && s.tasks[i].Ended? && !s.tasks[i].counted)
  }

  lemma StepKeepsFresh(maxRetries: nat, s: Run, event: Event)
    requires |s.items| == |s.tasks| && SomeFresh(s)
    ensures SomeFresh(Step(maxRetries, s, event))
  {
    var s' := Step(maxRetries, s, event);
    if event.i < |s.tasks| {
      var i, t, t' := event.i, s.tasks[event.i], s'.tasks[event.i];
      StepInShort(maxRetries, s, event);
      hide Step, Statuses, Merged, Target;
      if s'.log != s.log && Committing(s, i).read == Statuses(s.items) {
        assert s'.log[|s.log|].read == Statuses(s'.items);
      } else if !CanBeFresh(s', t') && !(t'.Ended? && !t'.counted) {
        hide SomeFresh;
        KeptWitness(s, s', i);
      }
    }
  }

  /** What made s fresh, other than task i, still does. */
  lemma KeptWitness(s: Run, s': Run, i: nat)
    requires i < |s.tasks| == |s'.tasks| && SomeFresh(s) && !CanBeFresh(s, s.tasks[i])
    requires s'.items == s.items && s.log <= s'.log
    requires forall j :: 0 <= j < |s.tasks| && j != i ==> s'.tasks[j] == s.tasks[j]
    requires s.tasks[i].Ended? ==> s'.tasks[i] == s.tasks[i]
    ensures SomeFresh(s')
  {
    hide Statuses;
    if j :| 0 <= j < |s.tasks| && CanBeFresh(s, s.tasks[j]) {
      assert CanBeFresh(s', s'.tasks[j]);
    } else if k :| 0 <= k < |s.log| && s.log[k].read == Statuses(s.items) {
      assert s'.log[k] == s.log[k];
    } else {
      var j :| 0 <= j < |s.tasks| && s.tasks[j].Ended? && !s.tasks[j].counted;
      assert s'.tasks[j] == s.tasks[j];
    }
  }

  lemma {:induction false} AlwaysSomeFresh(maxRetries: nat, n: nat, events: seq<Event>)
    requires n > 0
    ensures SomeFresh(After(maxRetries, n, events))
  {
    if events == [] {
      assert CanBeFresh(Initial(n), Initial(n).tasks[0]);
    } else {
      AlwaysSomeFresh(maxRetries, n, events[..|events| - 1]);
      hide SomeFresh, Step;
      StepKeepsFresh(maxRetries, After(maxRetries, n, events[..|events| - 1]), events[|events| - 1]);
    }
  }

  /** Once every task has ended with a recount, one of these read the items as they are now. */
  lemma SomeRecountIsFresh(maxRetries: nat, n: nat, events: seq<Event>)
    requires n > 0 && AllEnded(After(maxRetries, n, events)) && AllCounted(After(maxRetries, n, events))
    ensures var s := After(maxRetries, n, events); exists k :: 0 <= k < |s.log| && s.log[k].read == Statuses(s.items)
  {
    AlwaysSomeFresh(maxRetries, n, events);
    hide After;
  }

  ghost predicate ColumnAccurate(s: Run, c: Column) {
    Value(s.row, c) == Value(Settle(s.row, Statuses(s.items)), c)
  }

  /**
    Column by column, in every state: the row is right exactly if the last recount that changed the column read what
    the items still amount to; without one, exactly if there is nothing yet to count, or an item open in a started run.
  */
  lemma ColumnExactly(maxRetries: nat, n: nat, events: seq<Event>, c: Column)
    ensures var s := After(maxRetries, n, events);
            ColumnAccurate(s, c) <==>
              match SeenAtLastChange(maxRetries, n, events, c)
              case Some(read) => Value(Settle(s.row, read), c) == Value(Settle(s.row, Statuses(s.items)), c)
              case None =>
                if c.StatusColumn? then AnyStarted(s) && !NoneOpen(Statuses(s.items))
                else Value(Settle(s.row, Statuses(s.items)), c) == 0
  {
    var s := After(maxRetries, n, events);
    ColumnsFollowTheirLastChange(maxRetries, n, events, c);
    VerdictOfRecount(s.row, Statuses(s.items));
    hide After, Settle, Statuses, SeenAtLastChange;
  }

  /** With a recount made by every task, a column that no recount changed is right. */
  lemma ColumnWhenCounted(maxRetries: nat, n: nat, events: seq<Event>, c: Column)
    requires n > 0 && AllEnded(After(maxRetries, n, events)) && AllCounted(After(maxRetries, n, events))
    ensures SeenAtLastChange(maxRetries, n, events, c).None? ==> ColumnAccurate(After(maxRetries, n, events), c)
  {
    var s := After(maxRetries, n, events);
    LastChangeWasSeen(maxRetries, n, events, c);
    if LastChange(s.log, c).None? {
      SomeRecountIsFresh(maxRetries, n, events);
      RowsFit(maxRetries, n, events);
      hide After, Settle;
      var k :| 0 <= k < |s.log| && s.log[k].read == Statuses(s.items);
      var e := s.log[k];
      assert !Changes(e, c) && HeldFits(s, e.row);
      hide LastChange;
      TargetIsSettled(e);
      SettleIgnoresTheRow(s.row, e.row, e.read, c);
    }
  }

  // ------------------------------------------------- left running, exactly

  predicate IsOutcome(event: Event, j: nat) {
    event.i == j && (event.Return? || (event.Raise? && event.recorded.Some?))
  }

  lemma OnlyOutcomesClose(maxRetries: nat, s: Run, event: Event, j: nat)
    requires |s.items| == |s.tasks| && j < |s.tasks|
    requires Open(s.items[j].status) && !Open(Step(maxRetries, s, event).items[j].status)
    ensures IsOutcome(event, j)
  {
    hide Settle, Merged, Statuses;
  }

  /** An item that was open after some events and is not now has had an outcome recorded since. */
  lemma {:induction false} ClosedByAnOutcome(maxRetries: nat, n: nat, events: seq<Event>, from: nat, j: nat)
    requires from <= |events| && j < n
    requires Open(StatusesAt(maxRetries, n, events, from)[j]) && !Open(After(maxRetries, n, events).items[j].status)
    ensures exists k :: from <= k < |events| && IsOutcome(events[k], j)
    decreases |events|
  {
    assert events[..|events|] == events;
    assert from < |events|;
    var prior := events[..|events| - 1];
    if Open(After(maxRetries, n, prior).items[j].status) {
      OnlyOutcomesClose(maxRetries, After(maxRetries, n, prior), events[|events| - 1], j);
    } else {
      assert prior[..from] == events[..from];
      ClosedByAnOutcome(maxRetries, n, prior, from, j);
      var k :| from <= k < |prior| && IsOutcome(prior[k], j);
      assert events[k] == prior[k];
    }
  }

  /** A recount by task i reads its own item as closed, unless its outcome was lost. */
  ghost predicate ReadsOwn(e: Recounted, i: nat, lost: bool) {
    e.task == i < |e.read| && (!lost ==> !Open(e.read[i]))
  }

  ghost predicate OwnClosed(s: Run) {
    (forall i :: 0 <= i < |s.tasks| && s.tasks[i].Writing? ==> ReadsOwn(s.tasks[i].recount, i, s.tasks[i].lost))
    && (forall k :: 0 <= k < |s.log| ==>
          s.log[k].task < |s.tasks| && s.tasks[s.log[k].task].Ended?
          && ReadsOwn(s.log[k], s.log[k].task, s.tasks[s.log[k].task].lost))
  }

  lemma ReadNowIsOwn(maxRetries: nat, s: Run, i: nat, row: Row)
    requires PhasesFit(maxRetries, s) && i < |s.tasks| && !s.tasks[i].Queued? && !s.tasks[i].Processing?
    ensures ReadsOwn(Recounted(i, row, Statuses(s.items), s.clock), i, s.tasks[i].lost)
  {
    assert PhaseFits(maxRetries, |s.items|, s.items[i], s.tasks[i]);
  }

  lemma StepKeepsOwnClosed(maxRetries: nat, s: Run, event: Event)
    requires PhasesFit(maxRetries, s) && OwnClosed(s)
    ensures OwnClosed(Step(maxRetries, s, event))
  {
    var s' := Step(maxRetries, s, event);
    if event.i < |s.tasks| {
      var i, t := event.i, s.tasks[event.i];
      StepInShort(maxRetries, s, event);
      if t.Loaded? || t.Recounting? {
        ReadNowIsOwn(maxRetries, s, i, if t.Loaded? then t.row else s.row);
      }
      hide Step, Merged, Target, PhasesFit, Open, Statuses;
    }
  }

  lemma {:induction false} AlwaysOwnClosed(maxRetries: nat, n: nat, events: seq<Event>)
    ensures OwnClosed(After(maxRetries, n, events))
  {
    if events != [] {
      AlwaysOwnClosed(maxRetries, n, events[..|events| - 1]);
      AfterKeepsPhases(maxRetries, n, events[..|events| - 1]);
      hide OwnClosed, Step;
      StepKeepsOwnClosed(maxRetries, After(maxRetries, n, events[..|events| - 1]), events[|events| - 1]);
    }
  }

  lemma FinishedIsClosed(maxRetries: nat, n: nat, events: seq<Event>)
    requires AllEnded(After(maxRetries, n, events)) && NoneLost(After(maxRetries, n, events))
    ensures NoneOpen(Statuses(After(maxRetries, n, events).items))
  {
    AfterKeepsPhases(maxRetries, n, events);
    var s := After(maxRetries, n, events);
    hide After;
    forall j | 0 <= j < n
      ensures !Open(Statuses(s.items)[j])
    {
      assert PhaseFits(maxRetries, n, s.items[j], s.tasks[j]);
    }
  }

  /**
    In every state of every run, whatever failed: the row is settled exactly if the last recount that changed its
    status had read no open item.
  */
  lemma SettledExactly(maxRetries: nat, n: nat, events: seq<Event>)
    ensures Settled(After(maxRetries, n, events).row) <==>
              var seen := SeenAtLastChange(maxRetries, n, events, StatusColumn); seen.Some? && NoneOpen(seen.value)
  {
    var s := After(maxRetries, n, events);
    ColumnsFollowTheirLastChange(maxRetries, n, events, StatusColumn);
    hide After, SeenAtLastChange, Settle;
    match SeenAtLastChange(maxRetries, n, events, StatusColumn) {
      case Some(read) => RecountSettles(s.row, read);
      case None =>
    }
  }

  /**
    Why a run is left unsettled although every task has ended and every outcome is recorded: a recount changed the
    status last that had missed an outcome which another task recorded later, or some task's last recount failed.
  */
  lemma LeftRunningExactly(maxRetries: nat, n: nat, events: seq<Event>)
    requires n > 0 && AllEnded(After(maxRetries, n, events)) && NoneLost(After(maxRetries, n, events))
    ensures var s := After(maxRetries, n, events);
            var last := LastChange(s.log, StatusColumn);
            var seen := SeenAtLastChange(maxRetries, n, events, StatusColumn);
            (!Settled(s.row) <==> seen.None? || !NoneOpen(seen.value))
            && (seen.Some? && !NoneOpen(seen.value) ==> last.Some? && MissedOutcome(events, last.value))
            && (seen.None? ==> exists i :: 0 <= i < n && !s.tasks[i].counted)
  {
    var s := After(maxRetries, n, events);
    var last := LastChange(s.log, StatusColumn);
    SettledExactly(maxRetries, n, events);
    LastChangeWasSeen(maxRetries, n, events, StatusColumn);
    if last.Some? {
      if !NoneOpen(last.value.read) {
        MissedLater(maxRetries, n, events, last.value);
      }
    } else if AllCounted(s) {
      FinishedIsClosed(maxRetries, n, events);
      ColumnWhenCounted(maxRetries, n, events, StatusColumn);
      RecountSettles(s.row, Statuses(s.items));
    }
  }

  /** Another task records an outcome after the recount has read the items. */
  ghost predicate MissedOutcome(events: seq<Event>, e: Recounted) {
    exists j, k :: 0 <= j && j != e.task && e.at <= k < |events| && IsOutcome(events[k], j)
  }

  lemma MissedLater(maxRetries: nat, n: nat, events: seq<Event>, e: Recounted)
    requires AllEnded(After(maxRetries, n, events)) && NoneLost(After(maxRetries, n, events))
    requires e in After(maxRetries, n, events).log && e.at < |events|
    requires !NoneOpen(StatusesAt(maxRetries, n, events, e.at))
    ensures MissedOutcome(events, e)
  {
    var s := After(maxRetries, n, events);
    var j :| 0 <= j < n && Open(StatusesAt(maxRetries, n, events, e.at)[j]);
    FinishedIsClosed(maxRetries, n, events);
    ClosedByAnOutcome(maxRetries, n, events, e.at, j);
    StampsAreTrue(maxRetries, n, events);
    AlwaysOwnClosed(maxRetries, n, events);
    hide After;
    var m :| 0 <= m < |s.log| && s.log[m] == e;
    assert Stamped(maxRetries, n, events, e);
    assert s.tasks[e.task].Ended? && !s.tasks[e.task].lost;
    assert j != e.task;
  }
}
