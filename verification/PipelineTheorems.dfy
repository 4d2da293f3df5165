/** What item processing guarantees: when a version is published, how failures count, what a repeat meets. */
module PipelineTheorems {
  import opened Common
  import Breaker
  import IngestionRun
  import T = Timeline
  import opened Pipeline

  function ItemAfter(policy: Breaker.Policy, w: World, j: Job): Item
    requires Exists(w, j)
  {
    Step(policy, w, j).sources[j.source].items[j.item]
  }

  /** Everything that has to hold for a step to publish: read off its inputs, without running it. */
  ghost predicate Publishes(w: World, j: Job)
    requires Exists(w, j)
  {
    var s := w.sources[j.source];
    !Breaker.Blocked(s.health, j.gate) && !j.fault
    && (s.bronze == [] || s.bronze[|s.bronze| - 1].raw != j.raw)
    && (forall k :: 0 <= k < |s.bronze| ==> s.bronze[k].item != j.item)
    && Confidence(j.signals) >= j.threshold
    && PreviousDigest(Begun(s, j).items) != Some(j.extracted.semantic)
    && T.CanPublish(w.versions, T.Publication(j.versionId, j.extracted.program, j.versionName, j.now))
    && (j.versionId, j.extracted.url) !in w.documents
  }

  /**
    An item ends completed exactly when its step published a version, which happens exactly when the
    deterministic confidence meets the threshold, the content changed and nothing stood in the way.
    What is published is the deterministic extraction, never the fallback's.
  */
  lemma CompletedExactlyWhenPublished(policy: Breaker.Policy, w: World, j: Job)
    requires Exists(w, j)
    ensures ItemAfter(policy, w, j).status.Completed? <==> Publishes(w, j)
    ensures |Step(policy, w, j).versions| == |w.versions| + if Publishes(w, j) then 1 else 0
    ensures !Publishes(w, j) ==> Step(policy, w, j).versions == w.versions
    ensures Publishes(w, j) ==>
              Step(policy, w, j).versions
              == T.Publish(w.versions, T.Publication(j.versionId, j.extracted.program, j.versionName, j.now))
    ensures ItemAfter(policy, w, j).status.Completed? ==>
              var item := ItemAfter(policy, w, j);
              item.mode == Deterministic && !item.manualReview && item.semantic == Some(j.extracted.semantic)
  {
    hide T.CanPublish, PreviousDigest, LatestVersion, Confidence, Breaker.Blocked;
  }

  /**
    What a step reports to its run: a normal return records a status that a run accepts as one, an error that is
    handled to the end records a failed or quarantined item, and any other error leaves the item running.
  */
  lemma StepReportsToItsRun(policy: Breaker.Policy, w: World, j: Job)
    requires Exists(w, j)
    ensures var status := ItemAfter(policy, w, j).status;
            if !EndingOf(w, j).Raises? then IngestionRun.Returns(status)
            else if j.handler.HandledFully? then IngestionRun.HasFailed(status) && IngestionRun.Handles(Some(status))
            else status.Running?
    ensures ItemAfter(policy, w, j).attempt == j.attempt
  {
    hide T.CanPublish, T.Publish, PreviousDigest, LatestVersion, PayloadOf, DocumentsAfter;
  }

  function Run(policy: Breaker.Policy, w: World, jobs: seq<Job>): World
    decreases |jobs|
  {
    if jobs == [] then w else Run(policy, Step(policy, w, jobs[0]), jobs[1..])
  }

  /** The steps of a run that left their item completed. */
  function Completions(policy: Breaker.Policy, w: World, jobs: seq<Job>): nat
    decreases |jobs|
  {
    if jobs == [] then 0
    else (if Exists(w, jobs[0]) && ItemAfter(policy, w, jobs[0]).status.Completed? then 1 else 0)
         + Completions(policy, Step(policy, w, jobs[0]), jobs[1..])
  }

  lemma VersionsGrowByCompletion(policy: Breaker.Policy, w: World, j: Job)
    ensures |Step(policy, w, j).versions|
         == |w.versions| + if Exists(w, j) && ItemAfter(policy, w, j).status.Completed? then 1 else 0
  {
    if Exists(w, j) {
      CompletedExactlyWhenPublished(policy, w, j);
    }
  }

  /** Over any run, the versions created are as many as the items completed. */
  lemma {:induction false} VersionsEqualCompletions(policy: Breaker.Policy, w: World, jobs: seq<Job>)
    ensures |Run(policy, w, jobs).versions| == |w.versions| + Completions(policy, w, jobs)
    decreases |jobs|
  {
    if jobs != [] {
      VersionsGrowByCompletion(policy, w, jobs[0]);
      hide Step;
      VersionsEqualCompletions(policy, Step(policy, w, jobs[0]), jobs[1..]);
    }
  }

  // ------------------------------------------------------------------- source health

  /** How a step counts for its source's health. */
  function OutcomeFor(w: World, j: Job): Breaker.Outcome
    requires Exists(w, j)
  {
    match EndingOf(w, j)
    case Finished(_, _) => Breaker.Success
    case Raises => if j.handler.NotHandled? then Breaker.Neither else Breaker.Failure
    case _ => Breaker.Neither
  }

  lemma StepIsAnAttempt(policy: Breaker.Policy, w: World, j: Job)
    requires Exists(w, j)
    ensures Step(policy, w, j).sources[j.source].health
         == Breaker.Step(policy, w.sources[j.source].health, Breaker.Attempt(j.gate, j.end, OutcomeFor(w, j)))
    ensures forall id :: id in w.sources && id != j.source ==>
              id in Step(policy, w, j).sources && Step(policy, w, j).sources[id] == w.sources[id]
  {
    hide Publishing, T.Publish, DocumentsAfter, PayloadOf;
  }

  /** The attempts that a run makes on one source. */
  function Attempts(policy: Breaker.Policy, w: World, jobs: seq<Job>, id: SourceId): seq<Breaker.Attempt>
    decreases |jobs|
  {
    if jobs == [] then []
    else (if Exists(w, jobs[0]) && jobs[0].source == id
          then [Breaker.Attempt(jobs[0].gate, jobs[0].end, OutcomeFor(w, jobs[0]))] else [])
         + Attempts(policy, Step(policy, w, jobs[0]), jobs[1..], id)
  }

  /** Each source's health is a run of the abstract breaker, whatever happens to the others. */
  lemma {:induction false} HealthRefinesBreaker(policy: Breaker.Policy, w: World, jobs: seq<Job>, id: SourceId)
    requires id in w.sources
    ensures id in Run(policy, w, jobs).sources
    ensures Run(policy, w, jobs).sources[id].health
         == Breaker.Run(policy, w.sources[id].health, Attempts(policy, w, jobs, id))
    decreases |jobs|
  {
    if jobs != [] {
      var j, w' := jobs[0], Step(policy, w, jobs[0]);
      var rest := Attempts(policy, w', jobs[1..], id);
      if Exists(w, j) {
        StepIsAnAttempt(policy, w, j);
      } else {
        assert w' == w;
      }
      hide Step, EndingOf, Breaker.Step, OutcomeFor;
      HealthRefinesBreaker(policy, w', jobs[1..], id);
      if Exists(w, j) && j.source == id {
        var a := Breaker.Attempt(j.gate, j.end, OutcomeFor(w, j));
        assert ([a] + rest)[0] == a && ([a] + rest)[1..] == rest;
      } else {
        assert [] + rest == rest;
      }
    }
  }

  /**
    The rate bound for one source: steps that follow one another, none finishing, count at most
    threshold + span / hold failures, and the failure count is what the breaker says.
  */
  lemma FailingFetchesBound(policy: Breaker.Policy, w: World, jobs: seq<Job>, id: SourceId, from: int, span: nat)
    requires policy.hold > 0 && id in w.sources && Breaker.Consistent(policy, w.sources[id].health)
    requires var attempts := Attempts(policy, w, jobs, id);
             Breaker.Sequential(attempts) && Breaker.Within(attempts, from, from + span) && Breaker.NoSuccess(attempts)
    ensures id in Run(policy, w, jobs).sources
    ensures Run(policy, w, jobs).sources[id].health.failures - w.sources[id].health.failures
         <= Breaker.Threshold(policy) + span / policy.hold
  {
    hide Breaker.Run, Breaker.Failures, Attempts, Run, Breaker.NoSuccess;
    HealthRefinesBreaker(policy, w, jobs, id);
    var attempts := Attempts(policy, w, jobs, id);
    FailuresAreCounted(policy, w.sources[id].health, attempts);
    Breaker.FailureRateBound(policy, w.sources[id].health, attempts, from, span);
  }

  lemma {:induction false} FailuresAreCounted(p: Breaker.Policy, h: Breaker.Health, attempts: seq<Breaker.Attempt>)
    requires Breaker.NoSuccess(attempts)
    ensures Breaker.Run(p, h, attempts).failures == h.failures + Breaker.Failures(p, h, attempts)
    decreases |attempts|
  {
    if attempts != [] {
      assert forall i :: 0 <= i < |attempts[1..]| ==> attempts[1..][i] == attempts[i + 1];
      FailuresAreCounted(p, Breaker.Step(p, h, attempts[0]), attempts[1..]);
    }
  }

  // ------------------------------------------------------------------- known content

  /** The newest item that has finished. */
  function NewestFinished(items: seq<Item>): (i: Option<nat>)
    ensures i.Some? ==> i.value < |items| && IngestionRun.Succeeded(items[i.value].status)
    ensures i.Some? ==> forall k :: i.value < k < |items| ==> !IngestionRun.Succeeded(items[k].status)
    ensures i.None? ==> forall k :: 0 <= k < |items| ==> !IngestionRun.Succeeded(items[k].status)
    ensures PreviousDigest(items) == if i.None? then None else items[i.value].semantic
  {
    if items == [] then None
    else if IngestionRun.Succeeded(items[|items| - 1].status) then Some(|items| - 1)
    else NewestFinished(items[..|items| - 1])
  }

  lemma NewestIs(items: seq<Item>, i: nat)
    requires i < |items| && IngestionRun.Succeeded(items[i].status)
    requires forall k :: i < k < |items| ==> !IngestionRun.Succeeded(items[k].status)
    ensures PreviousDigest(items) == items[i].semantic
  {
    hide NewestFinished, PreviousDigest;
    var n := NewestFinished(items);
    assert n == Some(i);
  }

  /**
    A skip of unchanged bytes keeps whatever digest its item had: with no finished item after it, the next
    extraction counts as changed exactly if that digest, if any, is another one.
  */
  lemma RawSkipKeepsTheItemsDigest(policy: Breaker.Policy, w: World, j: Job, p: Payload)
    requires Exists(w, j) && EndingOf(w, j).RawUnchanged?
    requires forall k :: j.item < k < |w.sources[j.source].items| ==>
               !IngestionRun.Succeeded(w.sources[j.source].items[k].status)
    ensures Changed(Step(policy, w, j).sources[j.source].items, p)
       <==> w.sources[j.source].items[j.item].semantic != Some(p.extraction.semantic)
  {
    hide Publishing, T.Publish, DocumentsAfter, PayloadOf, PreviousDigest;
    NewestIs(Step(policy, w, j).sources[j.source].items, j.item);
  }

  /** Every extraction that a list of jobs makes from a source has one digest. */
  ghost predicate AllYield(jobs: seq<Job>, id: SourceId, d: Digest) {
    forall k :: 0 <= k < |jobs| && jobs[k].source == id && PayloadOf(jobs[k]).Some? ==>
      PayloadOf(jobs[k]).value.extraction.semantic == d
  }

  /** Whether some step of a run carried an item of a source to the end: past the fetch, with a digest. */
  predicate EverFinished(policy: Breaker.Policy, w: World, jobs: seq<Job>, id: SourceId, i: nat)
    decreases |jobs|
  {
    jobs != []
    && ((Exists(w, jobs[0]) && jobs[0].source == id && jobs[0].item == i && EndingOf(w, jobs[0]).Finished?)
        || EverFinished(policy, Step(policy, w, jobs[0]), jobs[1..], id, i))
  }

  lemma StepWritesDigests(policy: Breaker.Policy, w: World, j: Job, id: SourceId, i: nat, d: Digest)
    requires id in w.sources && i < |w.sources[id].items|
    requires j.source == id && PayloadOf(j).Some? ==> PayloadOf(j).value.extraction.semantic == d
    ensures id in Step(policy, w, j).sources && |Step(policy, w, j).sources[id].items| == |w.sources[id].items|
    ensures Step(policy, w, j).sources[id].items[i].semantic
         == if Exists(w, j) && j.source == id && j.item == i && EndingOf(w, j).Finished? then Some(d)
            else w.sources[id].items[i].semantic
  {
    FinishedPayload(w, j);
    hide Publishing, T.Publish, DocumentsAfter, PayloadOf;
  }

  lemma FinishedPayload(w: World, j: Job)
    ensures Exists(w, j) && EndingOf(w, j).Finished? ==> PayloadOf(j) == Some(EndingOf(w, j).payload)
  {
    hide T.CanPublish, PreviousDigest, LatestVersion, PayloadOf;
  }

  /** After a run that only ever extracts d, an item has that digest if it was carried to the end, else what it had. */
  lemma {:induction false} DigestsAfterRun(policy: Breaker.Policy, w: World, jobs: seq<Job>, id: SourceId, i: nat, d: Digest)
    requires id in w.sources && i < |w.sources[id].items| && AllYield(jobs, id, d)
    ensures id in Run(policy, w, jobs).sources && |Run(policy, w, jobs).sources[id].items| == |w.sources[id].items|
    ensures Run(policy, w, jobs).sources[id].items[i].semantic
         == if EverFinished(policy, w, jobs, id, i) then Some(d) else w.sources[id].items[i].semantic
    decreases |jobs|
  {
    if jobs != [] {
      StepWritesDigests(policy, w, jobs[0], id, i, d);
      assert forall k :: 0 <= k < |jobs[1..]| ==> jobs[1..][k] == jobs[k + 1];
      hide Step, EndingOf, PayloadOf;
      DigestsAfterRun(policy, Step(policy, w, jobs[0]), jobs[1..], id, i, d);
    }
  }

  /** Everything a publication needs but changed content. */
  ghost predicate Unobstructed(w: World, j: Job)
    requires Exists(w, j)
  {
    PastFetch(w, j) && Confidence(j.signals) >= j.threshold
    && T.CanPublish(w.versions, T.Publication(j.versionId, j.extracted.program, j.versionName, j.now))
    && (j.versionId, j.extracted.url) !in w.documents
  }

  /** The step gets past the gate, the fetch and the constraint on downloads, and nothing else raises. */
  predicate PastFetch(w: World, j: Job)
    requires Exists(w, j)
  {
    var s := w.sources[j.source];
    !Breaker.Blocked(s.health, j.gate) && !j.fault
    && (s.bronze == [] || s.bronze[|s.bronze| - 1].raw != j.raw)
    && (forall k :: 0 <= k < |s.bronze| ==> s.bronze[k].item != j.item)
  }

  /** Whether the item that is newest among the finished ones after a run has digest d, told from what the run did to it. */
  ghost predicate StillKnown(policy: Breaker.Policy, w: World, jobs: seq<Job>, j: Job, d: Digest)
    requires j.source in w.sources
  {
    var w' := Run(policy, w, jobs);
    Exists(w', j)
    && var newest := NewestFinished(Begun(w'.sources[j.source], j).items);
       newest.Some? && newest.value < |w.sources[j.source].items|
       && (EverFinished(policy, w, jobs, j.source, newest.value)
           || w.sources[j.source].items[newest.value].semantic == Some(d))
  }

  /**
    When the same content is published again: after any run that only ever extracts d from the source, a further
    unobstructed extraction of d is published exactly if no other item has finished, or if the newest that has was
    only ever skipped for unchanged bytes and did not have the digest before.
  */
  lemma RepublishesExactly(policy: Breaker.Policy, w: World, jobs: seq<Job>, j: Job, d: Digest)
    requires j.source in w.sources && AllYield(jobs, j.source, d) && j.extracted.semantic == d
    requires Exists(Run(policy, w, jobs), j) && Unobstructed(Run(policy, w, jobs), j)
    ensures Publishes(Run(policy, w, jobs), j) <==> !StillKnown(policy, w, jobs, j, d)
  {
    var w' := Run(policy, w, jobs);
    DigestsAfterRun(policy, w, jobs, j.source, j.item, d) by { RunKeepsItems(policy, w, jobs, j.source); }
    var items := Begun(w'.sources[j.source], j).items;
    var newest := NewestFinished(items);
    if newest.Some? {
      DigestsAfterRun(policy, w, jobs, j.source, newest.value, d);
    }
    hide Run, EverFinished, NewestFinished, PreviousDigest, T.CanPublish, Confidence, Breaker.Blocked;
  }

  lemma {:induction false} RunKeepsItems(policy: Breaker.Policy, w: World, jobs: seq<Job>, id: SourceId)
    requires id in w.sources
    ensures id in Run(policy, w, jobs).sources && |Run(policy, w, jobs).sources[id].items| == |w.sources[id].items|
    decreases |jobs|
  {
    if jobs != [] {
      StepKeepsItems(policy, w, jobs[0], id);
      hide Step;
      RunKeepsItems(policy, Step(policy, w, jobs[0]), jobs[1..], id);
    }
  }

  lemma StepKeepsItems(policy: Breaker.Policy, w: World, j: Job, id: SourceId)
    requires id in w.sources
    ensures id in Step(policy, w, j).sources && |Step(policy, w, j).sources[id].items| == |w.sources[id].items|
  {
    hide Publishing, T.Publish, DocumentsAfter, PayloadOf;
  }

  /** A step on an item that had not finished, which does not lose the digest by skipping unchanged bytes. */
  predicate KeepsDigest(w: World, j: Job, d: Digest) {
    Exists(w, j) ==>
      var item := w.sources[j.source].items[j.item];
      !IngestionRun.Succeeded(item.status) && (EndingOf(w, j).RawUnchanged? ==> item.semantic == Some(d))
  }

  predicate AllKeepDigest(policy: Breaker.Policy, w: World, jobs: seq<Job>, id: SourceId, d: Digest)
    decreases |jobs|
  {
    jobs == []
    || ((jobs[0].source == id ==> KeepsDigest(w, jobs[0], d))
        && AllKeepDigest(policy, Step(policy, w, jobs[0]), jobs[1..], id, d))
  }

  /** The versions that the jobs of one source publish. */
  function PublishedFrom(policy: Breaker.Policy, w: World, jobs: seq<Job>, id: SourceId): nat
    decreases |jobs|
  {
    if jobs == [] then 0
    else (if Exists(w, jobs[0]) && jobs[0].source == id && ItemAfter(policy, w, jobs[0]).status.Completed? then 1 else 0)
         + PublishedFrom(policy, Step(policy, w, jobs[0]), jobs[1..], id)
  }

  lemma {:induction false} PreviousOfUpdated(items: seq<Item>, i: nat, item: Item)
    requires i < |items| && !IngestionRun.Succeeded(items[i].status)
    ensures PreviousDigest(items[i := item]) == PreviousDigest(items)
            || (IngestionRun.Succeeded(item.status) && PreviousDigest(items[i := item]) == item.semantic)
  {
    var last := |items| - 1;
    if i == last {
      assert items[i := item][..last] == items[..last];
    } else {
      assert items[i := item][..last] == items[..last][i := item];
      PreviousOfUpdated(items[..last], i, item);
    }
  }

  lemma StepKeepsKnown(policy: Breaker.Policy, w: World, j: Job, id: SourceId, d: Digest)
    requires id in w.sources && PreviousDigest(w.sources[id].items) == Some(d)
    requires j.source == id ==> KeepsDigest(w, j, d) && (PayloadOf(j).Some? ==> PayloadOf(j).value.extraction.semantic == d)
    ensures id in Step(policy, w, j).sources && PreviousDigest(Step(policy, w, j).sources[id].items) == Some(d)
    ensures j.source == id && Exists(w, j) ==> !ItemAfter(policy, w, j).status.Completed?
  {
    if Exists(w, j) {
      StepIsAnAttempt(policy, w, j);
      if j.source == id {
        var items, begun := w.sources[id].items, Begun(w.sources[id], j).items;
        PreviousOfUpdated(items, j.item, begun[j.item]);
        StepUpdatesOneItem(policy, w, j);
        PreviousOfUpdated(items, j.item, ItemAfter(policy, w, j));
        FinishedPayload(w, j);
        CompletedExactlyWhenPublished(policy, w, j);
        StepWritesDigests(policy, w, j, id, j.item, d);
        PublishesChanged(w, j);
        FinishedWithDigest(policy, w, j);
        hide Step, EndingOf, PayloadOf, Publishes, PreviousDigest;
      }
    }
  }

  lemma PublishesChanged(w: World, j: Job)
    requires Exists(w, j)
    ensures Publishes(w, j) ==>
              PayloadOf(j).Some? && PayloadOf(j).value.extraction == j.extracted
              && PreviousDigest(Begun(w.sources[j.source], j).items) != Some(j.extracted.semantic)
  {
  }

  /** An item that ends finished was carried to the end or skipped for unchanged bytes. */
  lemma FinishedWithDigest(policy: Breaker.Policy, w: World, j: Job)
    requires Exists(w, j)
    ensures IngestionRun.Succeeded(ItemAfter(policy, w, j).status) ==> EndingOf(w, j).Finished? || EndingOf(w, j).RawUnchanged?
  {
    hide Publishing, T.Publish, DocumentsAfter, PayloadOf;
  }

  lemma StepUpdatesOneItem(policy: Breaker.Policy, w: World, j: Job)
    requires Exists(w, j)
    ensures Step(policy, w, j).sources[j.source].items == w.sources[j.source].items[j.item := ItemAfter(policy, w, j)]
  {
    hide Publishing, T.Publish, DocumentsAfter, PayloadOf;
  }

  /**
    Known content is not republished: while the source keeps yielding the digest of its newest finished item, no
    finished item is processed again, and no fresh item is skipped for unchanged bytes, the source publishes nothing.
  */
  lemma {:induction false} KnownContentIsNotRepublished(policy: Breaker.Policy, w: World, jobs: seq<Job>, id: SourceId, d: Digest)
    requires id in w.sources && PreviousDigest(w.sources[id].items) == Some(d)
    requires AllYield(jobs, id, d) && AllKeepDigest(policy, w, jobs, id, d)
    ensures PublishedFrom(policy, w, jobs, id) == 0
    ensures id in Run(policy, w, jobs).sources && PreviousDigest(Run(policy, w, jobs).sources[id].items) == Some(d)
    decreases |jobs|
  {
    if jobs != [] {
      StepKeepsKnown(policy, w, jobs[0], id, d);
      assert forall k :: 0 <= k < |jobs[1..]| ==> jobs[1..][k] == jobs[k + 1];
      hide Step, PayloadOf, KeepsDigest, PreviousDigest, ItemAfter;
      KnownContentIsNotRepublished(policy, Step(policy, w, jobs[0]), jobs[1..], id, d);
    }
  }

  // ------------------------------------------------------------------- documents of a version

  /**
    A step past the fetch that would not publish, for manual review or for an unchanged digest, raises exactly if the
    latest version already has a document of that address.
  */
  lemma ReviewRaisesExactly(w: World, j: Job, p: Payload)
    requires Exists(w, j) && PastFetch(w, j) && PayloadOf(j) == Some(p)
    requires !(CanAutoPublish(j, p) && Changed(Begun(w.sources[j.source], j).items, p))
    ensures EndingOf(w, j).Raises? <==> DocumentTaken(w, LatestVersion(w.versions, p.extraction.program), p.extraction.url)
    ensures !EndingOf(w, j).Raises? ==> EndingOf(w, j).Finished? && !EndingOf(w, j).status.Completed?
  {
    hide T.CanPublish, PreviousDigest, LatestVersion, Confidence;
  }

  /** A step that finishes without publishing attaches a document to the latest version. */
  lemma UnpublishedTakesTheDocument(policy: Breaker.Policy, w: World, j: Job)
    requires Exists(w, j) && EndingOf(w, j).Finished? && !EndingOf(w, j).status.Completed?
    ensures var e := EndingOf(w, j).payload.extraction;
            DocumentTaken(Step(policy, w, j), LatestVersion(w.versions, e.program), e.url)
            <==> LatestVersion(w.versions, e.program).Some?
  {
    hide T.CanPublish, PreviousDigest, LatestVersion, PayloadOf;
  }

  lemma StepKeepsDocuments(policy: Breaker.Policy, w: World, j: Job)
    ensures w.documents <= Step(policy, w, j).documents
  {
    hide Publishing, T.Publish, PayloadOf, LatestVersion;
  }

  /** Once taken, a document key stays taken through every run. */
  lemma {:induction false} DocumentsStay(policy: Breaker.Policy, w: World, jobs: seq<Job>)
    ensures w.documents <= Run(policy, w, jobs).documents
    decreases |jobs|
  {
    if jobs != [] {
      StepKeepsDocuments(policy, w, jobs[0]);
      hide Step;
      DocumentsStay(policy, Step(policy, w, jobs[0]), jobs[1..]);
    }
  }

  /**
    Recorded once per version and address: after a step that finished without publishing, and any run that leaves the
    program's latest version the same, the next such step for the program and address raises and counts as a failure.
  */
  lemma SecondReviewFails(policy: Breaker.Policy, w: World, first: Job, between: seq<Job>, second: Job, q: Payload)
    requires Exists(w, first) && EndingOf(w, first).Finished? && !EndingOf(w, first).status.Completed?
    requires var e := EndingOf(w, first).payload.extraction;
             var w' := Run(policy, Step(policy, w, first), between);
             LatestVersion(w.versions, e.program).Some?
             && LatestVersion(w'.versions, e.program) == LatestVersion(w.versions, e.program)
             && q.extraction.program == e.program && q.extraction.url == e.url
    requires var w' := Run(policy, Step(policy, w, first), between);
             Exists(w', second) && PastFetch(w', second) && PayloadOf(second) == Some(q) && !second.handler.NotHandled?
             && !(CanAutoPublish(second, q) && Changed(Begun(w'.sources[second.source], second).items, q))
    ensures var w' := Run(policy, Step(policy, w, first), between);
            EndingOf(w', second).Raises?
            && Step(policy, w', second).sources[second.source].health
               == Breaker.Fail(policy, w'.sources[second.source].health, second.end)
  {
    var w1 := Step(policy, w, first);
    var w' := Run(policy, w1, between);
    UnpublishedTakesTheDocument(policy, w, first);
    DocumentsStay(policy, w1, between);
    ReviewRaisesExactly(w', second, q);
    StepIsAnAttempt(policy, w', second);
    hide Step, Run, EndingOf, PayloadOf, CanAutoPublish, Changed, LatestVersion, PastFetch;
    assert w'.documents >= w1.documents;
    BlockedOrNot(w', second);
  }

  lemma BlockedOrNot(w: World, j: Job)
    requires Exists(w, j) && PastFetch(w, j)
    ensures !Breaker.Blocked(w.sources[j.source].health, j.gate)
  {
  }
}
