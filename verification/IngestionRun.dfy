/**
  One ingestion run (apps/ingestion/tasks.py, finalize_run in services.py, the marks in repositories.py):
  a task per item, retried independently, each ending with a recount of the run's row.
*/
module IngestionRun {
  import opened Common

  datatype RunStatus = RunPending | RunRunning | RunCompleted | RunFailed

  datatype ItemStatus = Pending | Running | Completed | Skipped | ManualReview | Failed | Quarantined

  predicate Succeeded(s: ItemStatus) { s.Completed? || s.Skipped? || s.ManualReview? }
  predicate HasFailed(s: ItemStatus) { s.Failed? || s.Quarantined? }
  predicate Open(s: ItemStatus) { s.Pending? || s.Running? }

  datatype Row = Row(status: RunStatus, total: nat, processed: nat, success: nat, failed: nat)

  function NewRow(total: nat): Row { Row(RunPending, total, 0, 0, 0) }

  /** What a recount writes, from the statuses it has read. */
  function Settle(row: Row, statuses: seq<ItemStatus>): Row {
    var success, failed := Count(statuses, Succeeded), Count(statuses, HasFailed);
    Row(if Count(statuses, Open) > 0 then RunRunning else if failed == 0 then RunCompleted else RunFailed,
        row.total, success + failed, success, failed)
  }

  /**
    What a commit makes of the stored row when the session loaded one row and left another: only the columns
    whose value the session changed are written.
  */
  function Merged(stored: Row, loaded: Row, left: Row): Row {
    Row(if left.status != loaded.status then left.status else stored.status,
        stored.total,
        if left.processed != loaded.processed then left.processed else stored.processed,
        if left.success != loaded.success then left.success else stored.success,
        if left.failed != loaded.failed then left.failed else stored.failed)
  }

  class RunTable {
    var row: Row

    constructor (total: nat)
      ensures row == NewRow(total)
    {
      row := NewRow(total);
    }
  }

  /** One session's copy of the run: loaded once, changed field by field, written back by the commit. */
  class RunSession {
    const table: RunTable
    var loaded: Row
    var run: Row

    constructor (table: RunTable)
      ensures this.table == table && loaded == run == table.row
    {
      this.table, loaded, run := table, table.row, table.row;
    }

    method MarkRunCompleted(success: nat, failed: nat)
      modifies `run
      ensures run == Row(if failed == 0 then RunCompleted else RunFailed, old(run.total), success + failed, success, failed)
    {
      run := run.(processed := success + failed, success := success, failed := failed,
                  status := if failed == 0 then RunCompleted else RunFailed);
    }

    method Commit()
      modifies `loaded, table
      ensures table.row == Merged(old(table.row), old(loaded), run) && loaded == run
    {
      var stored := table.row;
      if run.status != loaded.status { stored := stored.(status := run.status); }
      if run.processed != loaded.processed { stored := stored.(processed := run.processed); }
      if run.success != loaded.success { stored := stored.(success := run.success); }
      if run.failed != loaded.failed { stored := stored.(failed := run.failed); }
      table.row := stored;
      loaded := run;
    }

    /** Recounts the items it has read and commits; a run with an open item goes back to running. */
    method FinalizeRun(statuses: seq<ItemStatus>)
      requires run == loaded
      modifies this, table
      ensures table.row == Merged(old(table.row), old(loaded), Settle(old(loaded), statuses))
      ensures old(loaded) == old(table.row) ==> table.row == Settle(old(table.row), statuses)
    {
      var success, failed, pending := 0, 0, 0;
      for i := 0 to |statuses|
        invariant run == loaded == old(loaded) && table.row == old(table.row)
        invariant success == Count(statuses[..i], Succeeded)
        invariant failed == Count(statuses[..i], HasFailed)
        invariant pending == Count(statuses[..i], Open)
      {
        assert statuses[..i + 1] == statuses[..i] + [statuses[i]];
        CountAppend(statuses[..i], [statuses[i]], Succeeded);
        CountAppend(statuses[..i], [statuses[i]], HasFailed);
        CountAppend(statuses[..i], [statuses[i]], Open);
        if Succeeded(statuses[i]) { success := success + 1; }
        if HasFailed(statuses[i]) { failed := failed + 1; }
        if Open(statuses[i]) { pending := pending + 1; }
      }
      assert statuses[..|statuses|] == statuses;
      if pending > 0 {
        run := run.(processed := success + failed, success := success, failed := failed, status := RunRunning);
      } else {
        MarkRunCompleted(success, failed);
      }
      Commit();
    }
  }

  // ------------------------------------------------------------- what a recount says

  /** The three counters partition the items. */
  lemma {:induction false} CountsPartition(statuses: seq<ItemStatus>)
    ensures Count(statuses, Succeeded) + Count(statuses, HasFailed) + Count(statuses, Open) == |statuses|
  {
    if statuses != [] {
      CountsPartition(statuses[1..]);
    }
  }

  lemma {:induction false} CountIsZero<T>(xs: seq<T>, p: T -> bool)
    ensures Count(xs, p) == 0 <==> forall i :: 0 <= i < |xs| ==> !p(xs[i])
  {
    if xs != [] {
      CountIsZero(xs[1..], p);
      assert forall i :: 1 <= i < |xs| ==> xs[i] == xs[1..][i - 1];
    }
  }

  /**
    The row's verdict: running exactly while an item is open, completed exactly when every item succeeded,
    failed otherwise; successes, failures and open items add up to all the items.
  */
  lemma VerdictOfRecount(row: Row, statuses: seq<ItemStatus>)
    ensures var r := Settle(row, statuses);
            (r.status.RunRunning? <==> exists i :: 0 <= i < |statuses| && Open(statuses[i]))
            && (r.status.RunCompleted? <==> forall i :: 0 <= i < |statuses| ==> Succeeded(statuses[i]))
            && !r.status.RunPending?
            && r.processed == r.success + r.failed
            && r.success + r.failed + Count(statuses, Open) == |statuses|
  {
    CountsPartition(statuses);
    CountIsZero(statuses, Open);
    CountIsZero(statuses, HasFailed);
  }

  // ------------------------------------------------------------- the interleaved tasks

  /** One recount: who made it, the row it had loaded, the statuses it read, and after how many events it read them. */
  datatype Recounted = Recounted(task: nat, row: Row, read: seq<ItemStatus>, at: nat)

  /**
    Where one task is. Recounting covers both the recount after a normal return and, when closing, the one
    before a dead letter; lost says that the handler of the last error failed as well, leaving the item's
    status as it was. A recount loads the run, reads the items and commits in three steps.
  */
  datatype Phase =
    | Queued(attempt: nat)
    | Processing(attempt: nat)
    | Raised(attempt: nat, lost: bool, definitive: bool)
    | Recounting(attempt: nat, lost: bool, closing: bool)
    | Loaded(attempt: nat, lost: bool, closing: bool, row: Row)
    | Writing(attempt: nat, lost: bool, closing: bool, recount: Recounted)
    | Ended(attempt: nat, lost: bool, counted: bool)

  datatype Item = Item(status: ItemStatus, attempt: nat)

  /** log lists the recounts committed so far; clock counts the events. */
  datatype Run = Run(row: Row, items: seq<Item>, tasks: seq<Phase>, clock: nat, log: seq<Recounted>)

  datatype Event =
    | Start(i: nat)
    | Return(i: nat, status: ItemStatus)
    | Raise(i: nat, recorded: Option<ItemStatus>, definitive: bool)
    | Decide(i: nat)
    | Load(i: nat)
    | Read(i: nat)
    | Write(i: nat)
    | RecountFails(i: nat, definitive: bool)
    | Recount(i: nat)

  function Statuses(items: seq<Item>): (s: seq<ItemStatus>)
    ensures |s| == |items| && forall i :: 0 <= i < |items| ==> s[i] == items[i].status
  {
    seq(|items|, i requires 0 <= i < |items| => items[i].status)
  }

  function Initial(n: nat): Run {
    Run(NewRow(n), seq(n, i => Item(Pending, 0)), seq(n, i => Queued(1)), 0, [])
  }

  function Moved(s: Run, i: nat, item: Item, phase: Phase): Run
    requires i < |s.items| == |s.tasks|
  {
    s.(items := s.items[i := item], tasks := s.tasks[i := phase])
  }

  predicate Handles(recorded: Option<ItemStatus>) {
    recorded == None || recorded == Some(Failed) || recorded == Some(Quarantined)
  }

  predicate Returns(status: ItemStatus) {
    Succeeded(status) || status.Quarantined?
  }

  function LoadStep(s: Run, i: nat): Run
    requires i < |s.items| == |s.tasks|
  {
    var t := s.tasks[i];
    if t.Recounting? then s.(tasks := s.tasks[i := Loaded(t.attempt, t.lost, t.closing, s.row)]) else s
  }

  function ReadStep(s: Run, i: nat): Run
    requires i < |s.items| == |s.tasks|
  {
    var t := s.tasks[i];
    if t.Loaded? then
      s.(tasks := s.tasks[i := Writing(t.attempt, t.lost, t.closing, Recounted(i, t.row, Statuses(s.items), s.clock))])
    else s
  }

  /** What a recount leaves in its session. */
  function Target(e: Recounted): Row { Settle(e.row, e.read) }

  function WriteStep(s: Run, i: nat): Run
    requires i < |s.items| == |s.tasks|
  {
    var t := s.tasks[i];
    if t.Writing? then
      s.(row := Merged(s.row, t.recount.row, Target(t.recount)), log := s.log + [t.recount],
         tasks := s.tasks[i := Ended(t.attempt, t.lost, true)])
    else s
  }

  /** One committed effect of one task; an event that does not fit its phase changes nothing. */
  function Effect(maxRetries: nat, s: Run, e: Event): Run
    requires |s.items| == |s.tasks|
  {
    if e.i >= |s.tasks| then s
    else
      var i, t, item := e.i, s.tasks[e.i], s.items[e.i];
      match e
      case Start(_) =>
        if t.Queued? then
          Moved(s, i, Item(Running, t.attempt), Processing(t.attempt))
            .(row := if s.row.status.RunPending? then s.row.(status := RunRunning) else s.row)
        else s
      case Return(_, status) =>
        if t.Processing? && Returns(status) then Moved(s, i, item.(status := status), Recounting(t.attempt, false, false))
        else s
      case Raise(_, recorded, definitive) =>
        if (t.Queued? || t.Processing?) && Handles(recorded) then
          Moved(s, i, if recorded.Some? then item.(status := recorded.value) else item,
                Raised(t.attempt, recorded.None?, definitive))
        else s
      case Decide(_) =>
        if !t.Raised? then s
        else if t.definitive || t.attempt > maxRetries then Moved(s, i, item, Recounting(t.attempt, t.lost, true))
        else Moved(s, i, item, Queued(t.attempt + 1))
      case Load(_) => LoadStep(s, i)
      case Read(_) => ReadStep(s, i)
      case Write(_) => WriteStep(s, i)
      case RecountFails(_, definitive) =>
        if !(t.Recounting? || t.Loaded? || t.Writing?) then s
        else if t.closing then Moved(s, i, item, Ended(t.attempt, t.lost, false))
        else Moved(s, i, item, Raised(t.attempt, t.lost, definitive))
      case Recount(_) => if t.Recounting? then WriteStep(ReadStep(LoadStep(s, i), i), i) else s
  }

  function Step(maxRetries: nat, s: Run, e: Event): (s': Run)
    requires |s.items| == |s.tasks|
    ensures |s'.items| == |s'.tasks| == |s.tasks|
  {
    Effect(maxRetries, s, e).(clock := s.clock + 1)
  }

  /** A run of n items after some events. */
  function After(maxRetries: nat, n: nat, events: seq<Event>): (s: Run)
    ensures |s.items| == |s.tasks| == n && s.clock == |events|
  {
    if events == [] then Initial(n)
    else Step(maxRetries, After(maxRetries, n, events[..|events| - 1]), events[|events| - 1])
  }

  ghost predicate PhaseFits(maxRetries: nat, n: nat, item: Item, t: Phase) {
    1 <= t.attempt <= maxRetries + 1 && item.attempt <= t.attempt
    && (t.Processing? ==> item.status.Running?)
    && (t.Queued? && t.attempt == 1 ==> item.status.Pending?)
    && (!t.Queued? && !t.Processing? && !t.lost ==> !Open(item.status))
    && (t.Writing? ==> |t.recount.read| == n)
  }

  ghost predicate PhasesFit(maxRetries: nat, s: Run) {
    |s.items| == |s.tasks|
    && forall i :: 0 <= i < |s.tasks| ==> PhaseFits(maxRetries, |s.items|, s.items[i], s.tasks[i])
  }

  lemma EffectIsLocal(maxRetries: nat, s: Run, e: Event, j: nat)
    requires |s.items| == |s.tasks| && j < |s.tasks| && j != e.i
    ensures var s' := Step(maxRetries, s, e); s'.tasks[j] == s.tasks[j] && s'.items[j] == s.items[j]
  {
    hide Settle, Merged, Statuses;
  }

  lemma StepKeepsPhases(maxRetries: nat, s: Run, e: Event)
    requires PhasesFit(maxRetries, s)
    ensures PhasesFit(maxRetries, Step(maxRetries, s, e))
  {
    var s' := Step(maxRetries, s, e);
    forall j | 0 <= j < |s.tasks|
      ensures PhaseFits(maxRetries, |s.items|, s'.items[j], s'.tasks[j])
    {
      assert PhaseFits(maxRetries, |s.items|, s.items[j], s.tasks[j]);
      if j != e.i {
        EffectIsLocal(maxRetries, s, e, j);
      } else {
        hide Settle, Merged;
      }
    }
  }

  lemma {:induction false} AfterKeepsPhases(maxRetries: nat, n: nat, events: seq<Event>)
    ensures PhasesFit(maxRetries, After(maxRetries, n, events))
  {
    if events != [] {
      AfterKeepsPhases(maxRetries, n, events[..|events| - 1]);
      StepKeepsPhases(maxRetries, After(maxRetries, n, events[..|events| - 1]), events[|events| - 1]);
    }
  }

  ghost predicate AllEnded(s: Run) { forall i :: 0 <= i < |s.tasks| ==> s.tasks[i].Ended? }

  ghost predicate AllCounted(s: Run) { forall i :: 0 <= i < |s.tasks| ==> s.tasks[i].Ended? ==> s.tasks[i].counted }

  /** A row that says how the run ended. */
  predicate Settled(r: Row) { r.status.RunCompleted? || r.status.RunFailed? }

  ghost predicate NoneOpen(statuses: seq<ItemStatus>) { forall j :: 0 <= j < |statuses| ==> !Open(statuses[j]) }

  lemma RecountSettles(row: Row, read: seq<ItemStatus>)
    ensures Settled(Settle(row, read)) <==> NoneOpen(read)
  {
    VerdictOfRecount(row, read);
  }

  /** The statuses of the items after the first k events. */
  function StatusesAt(maxRetries: nat, n: nat, events: seq<Event>, k: nat): (st: seq<ItemStatus>)
    requires k <= |events|
    ensures |st| == n
  {
    Statuses(After(maxRetries, n, events[..k]).items)
  }

  /** No error handler failed on a task's last try. */
  ghost predicate NoneLost(s: Run) { forall i :: 0 <= i < |s.tasks| ==> s.tasks[i].Ended? ==> !s.tasks[i].lost }

  /** Every task has ended with a recount, and every outcome was recorded. */
  ghost predicate Finished(s: Run) { AllEnded(s) && AllCounted(s) && NoneLost(s) }

  /** The row agrees with the items. */
  ghost predicate Accurate(s: Run) { s.row == Settle(s.row, Statuses(s.items)) }

  // ------------------------------------------------------------- undivided recounts

  /** No recount is interrupted by another task between loading the run and committing. */
  ghost predicate Atomic(events: seq<Event>) {
    forall k :: 0 <= k < |events| ==> !events[k].Load? && !events[k].Read? && !events[k].Write?
  }

  predicate Divided(t: Phase) { t.Loaded? || t.Writing? }

  ghost predicate NoneDivided(s: Run) { forall i :: 0 <= i < |s.tasks| ==> !Divided(s.tasks[i]) }

  lemma RecountNow(s: Run, i: nat)
    requires i < |s.items| == |s.tasks| && s.tasks[i].Recounting?
    ensures var t := s.tasks[i];
            WriteStep(ReadStep(LoadStep(s, i), i), i)
            == s.(row := Settle(s.row, Statuses(s.items)), tasks := s.tasks[i := Ended(t.attempt, t.lost, true)],
                  log := s.log + [Recounted(i, s.row, Statuses(s.items), s.clock)])
  {
    var t, e := s.tasks[i], Recounted(i, s.row, Statuses(s.items), s.clock);
    var l := LoadStep(s, i);
    assert l.tasks[i] == Loaded(t.attempt, t.lost, t.closing, s.row);
    var r := ReadStep(l, i);
    assert r.tasks[i] == Writing(t.attempt, t.lost, t.closing, e);
    assert r.tasks[i := Ended(t.attempt, t.lost, true)] == s.tasks[i := Ended(t.attempt, t.lost, true)];
  }

  /** The row is what the last recount wrote, from the items as they were at its event. */
  ghost predicate IsLastRecount(maxRetries: nat, n: nat, events: seq<Event>, s: Run) {
    if s.log == [] then s.row == NewRow(n) || s.row == NewRow(n).(status := RunRunning)
    else
      var e := s.log[|s.log| - 1];
      e.at < |events| && s.row.total == n && s.row == Settle(s.row, StatusesAt(maxRetries, n, events, e.at))
  }

  /** Between recounts the row only leaves pending; a recount replaces it. */
  lemma UndividedEffect(maxRetries: nat, s: Run, e: Event)
    requires |s.items| == |s.tasks| && NoneDivided(s) && !e.Load? && !e.Read? && !e.Write?
    ensures NoneDivided(Step(maxRetries, s, e))
    ensures var s' := Step(maxRetries, s, e);
            if s'.log == s.log then
              s'.row == s.row || (s.row.status.RunPending? && s'.row == s.row.(status := RunRunning))
            else
              s'.log == s.log + [Recounted(e.i, s.row, Statuses(s.items), s.clock)] && s'.row == Settle(s.row, Statuses(s.items))
  {
    hide Settle, Merged, Statuses;
    var s' := Step(maxRetries, s, e);
    if e.i < |s.tasks| {
      assert !Divided(s.tasks[e.i]);
      if s.tasks[e.i].Recounting? {
        RecountNow(s, e.i);
      }
      assert forall j :: 0 <= j < |s.tasks| && j != e.i ==> s'.tasks[j] == s.tasks[j];
    }
  }

  /** What was read after the first events does not change with later ones. */
  lemma StatusesStay(maxRetries: nat, n: nat, events: seq<Event>, k: nat)
    requires events != [] && k < |events|
    ensures StatusesAt(maxRetries, n, events, k) == StatusesAt(maxRetries, n, events[..|events| - 1], k)
  {
    hide After;
    assert events[..|events| - 1][..k] == events[..k];
  }

  lemma {:induction false} UndividedStep(maxRetries: nat, n: nat, events: seq<Event>)
    requires events != [] && Atomic(events)
    requires var s := After(maxRetries, n, events[..|events| - 1]);
             NoneDivided(s) && IsLastRecount(maxRetries, n, events[..|events| - 1], s)
    ensures var s := After(maxRetries, n, events); NoneDivided(s) && IsLastRecount(maxRetries, n, events, s)
  {
    var prior, event := events[..|events| - 1], events[|events| - 1];
    var s, s' := After(maxRetries, n, prior), After(maxRetries, n, events);
    assert s' == Step(maxRetries, s, event) && s.clock == |prior| && |s.items| == |s.tasks|;
    assert !event.Load? && !event.Read? && !event.Write?;
    hide After, Atomic, NoneDivided, Step, Settle, Statuses;
    UndividedEffect(maxRetries, s, event);
    if s'.log == s.log {
      if s.log != [] {
        var e := s.log[|s.log| - 1];
        StatusesStay(maxRetries, n, events, e.at);
        SettleTwice(s.row, StatusesAt(maxRetries, n, prior, e.at));
      }
    } else {
      StatusesStay(maxRetries, n, events, |prior|);
      assert prior[..|prior|] == prior;
      SettleTwice(s.row, Statuses(s.items));
      TotalStays(maxRetries, n, prior);
    }
  }

  lemma SettleTwice(row: Row, statuses: seq<ItemStatus>)
    ensures var r := Settle(row, statuses); Settle(r, statuses) == r && r.total == row.total && !r.status.RunPending?
  {
  }

  lemma LastRecountSettles(maxRetries: nat, n: nat, events: seq<Event>, s: Run)
    requires IsLastRecount(maxRetries, n, events, s)
    ensures Settled(s.row) <==> s.log != [] && s.log[|s.log| - 1].at < |events|
                                && NoneOpen(StatusesAt(maxRetries, n, events, s.log[|s.log| - 1].at))
  {
    hide StatusesAt, Settle, NoneOpen;
    if s.log != [] {
      RecountSettles(s.row, StatusesAt(maxRetries, n, events, s.log[|s.log| - 1].at));
    }
  }

  /** With undivided recounts the last one committed decides the whole row, whatever became of the other tasks. */
  lemma {:induction false} RowIsTheLastRecount(maxRetries: nat, n: nat, events: seq<Event>)
    requires Atomic(events)
    ensures var s := After(maxRetries, n, events);
            NoneDivided(s) && IsLastRecount(maxRetries, n, events, s)
            && (Settled(s.row) <==> s.log != [] && s.log[|s.log| - 1].at < |events|
                                    && NoneOpen(StatusesAt(maxRetries, n, events, s.log[|s.log| - 1].at)))
  {
    var s := After(maxRetries, n, events);
    if events != [] {
      var prior := events[..|events| - 1];
      assert Atomic(prior) by {
        assert forall k :: 0 <= k < |prior| ==> prior[k] == events[k];
      }
      RowIsTheLastRecount(maxRetries, n, prior);
      hide After, Atomic, NoneDivided, IsLastRecount, StatusesAt;
      UndividedStep(maxRetries, n, events);
    }
    LastRecountSettles(maxRetries, n, events, s);
  }

  /** Every task that has ended by its recount was the last to write when it did; nothing it counted has changed since. */
  ghost predicate EndsWithARecount(s: Run) {
    AllEnded(s) && AllCounted(s) && s.tasks != [] ==> Accurate(s)
  }

  lemma AtomicStep(maxRetries: nat, s: Run, e: Event)
    requires |s.items| == |s.tasks| && NoneDivided(s) && !e.Load? && !e.Read? && !e.Write? && EndsWithARecount(s)
    ensures EndsWithARecount(Step(maxRetries, s, e))
  {
    hide Settle, Merged;
    var s' := Step(maxRetries, s, e);
    if e.i < |s.tasks| {
      var t, t' := s.tasks[e.i], s'.tasks[e.i];
      assert !Divided(t);
      if t.Recounting? {
        RecountNow(s, e.i);
      }
      assert forall j :: 0 <= j < |s.tasks| && j != e.i ==> s'.tasks[j] == s.tasks[j];
      if AllEnded(s') && AllCounted(s') {
        assert t'.Ended? && t'.counted;
        if t.Ended? {
          assert s' == s.(clock := s'.clock);
          assert forall j :: 0 <= j < |s.tasks| ==> s.tasks[j] == s'.tasks[j];
          assert AllEnded(s) && AllCounted(s);
        } else {
          assert s'.items == s.items && s'.row == Settle(s.row, Statuses(s.items));
          SettleTwice(s.row, Statuses(s.items));
        }
      }
    }
  }

  lemma {:induction false} AtomicRun(maxRetries: nat, n: nat, events: seq<Event>)
    requires n > 0 && Atomic(events)
    ensures EndsWithARecount(After(maxRetries, n, events))
  {
    if events == [] {
      assert !After(maxRetries, n, []).tasks[0].Ended?;
    } else {
      var prior, last := events[..|events| - 1], events[|events| - 1];
      assert Atomic(prior) by {
        assert forall k :: 0 <= k < |prior| ==> prior[k] == events[k];
      }
      assert events[|prior|] == last;
      AtomicRun(maxRetries, n, prior);
      RowIsTheLastRecount(maxRetries, n, prior);
      hide Step, EndsWithARecount, NoneDivided, IsLastRecount;
      AtomicStep(maxRetries, After(maxRetries, n, prior), last);
    }
  }

  lemma {:induction false} TotalStays(maxRetries: nat, n: nat, events: seq<Event>)
    ensures After(maxRetries, n, events).row.total == n
  {
    if events != [] {
      hide Settle, Statuses;
      TotalStays(maxRetries, n, events[..|events| - 1]);
    }
  }

  /** The row is an accurate count of the items, open only where an error handler failed. */
  ghost predicate Settles(maxRetries: nat, s: Run) {
    Accurate(s) && |s.items| == |s.tasks| == s.row.total
    && (s.row.status.RunCompleted? <==> forall i :: 0 <= i < |s.items| ==> Succeeded(s.items[i].status))
    && (s.row.status.RunRunning? <==> exists i :: 0 <= i < |s.items| && Open(s.items[i].status))
    && (forall i :: 0 <= i < |s.items| && Open(s.items[i].status) ==> s.tasks[i].Ended? && s.tasks[i].lost)
    && (forall i :: 0 <= i < |s.items| ==> s.items[i].attempt <= maxRetries + 1)
    && !s.row.status.RunPending?
    && s.row.success + s.row.failed + Count(Statuses(s.items), Open) == s.row.total
  }

  /**
    However the item tasks of a run interleave, fail and retry, with undivided recounts: once all tasks have ended,
    the row settles the run unless some task's last recount failed, and with every task's recount made it is an
    accurate count; it is left running then exactly if some item is still open, and an item is open only if the
    handler of its last error failed too.
  */
  lemma RunSettles(maxRetries: nat, n: nat, events: seq<Event>)
    requires n > 0 && Atomic(events) && AllEnded(After(maxRetries, n, events))
    ensures var s := After(maxRetries, n, events);
            Settles(maxRetries, s) || exists i :: 0 <= i < n && !s.tasks[i].counted
  {
    var s := After(maxRetries, n, events);
    if AllCounted(s) {
      AfterKeepsPhases(maxRetries, n, events);
      AtomicRun(maxRetries, n, events);
      TotalStays(maxRetries, n, events);
      hide After, Settle, Initial;
      VerdictOfRecount(s.row, Statuses(s.items));
      assert forall i :: 0 <= i < n ==> PhaseFits(maxRetries, n, s.items[i], s.tasks[i]);
      assert forall i :: 0 <= i < n ==> Statuses(s.items)[i] == s.items[i].status;
    }
  }
}
