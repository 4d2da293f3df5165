/** Two short runs of item processing: one digest published twice, and a second review that fails. */
module PipelineWitnesses {
  import opened Common
  import Breaker
  import IngestionRun
  import T = Timeline
  import opened Pipeline
  import opened PipelineTheorems

  const POLICY := Breaker.Policy(3, 100)
  const FRESH: Item := Item(IngestionRun.Pending, 0, None, None, Deterministic, false)

  /** Signals enough for the threshold, or none. */
  function JobFor(item: nat, raw: Digest, signals: nat, semantic: Digest, version: int, name: char, now: int): Job {
    Job(0, item, 1, 8000, now, now, now, false, HandledFully, raw, signals, Extraction(5, ['u'], semantic),
        Some(Extraction(5, ['u'], semantic)), version, [name])
  }

  lemma RunOfOne(policy: Breaker.Policy, w: World, j: Job)
    ensures Run(policy, w, [j]) == Step(policy, w, j)
  {
    assert [j][1..] == [];
  }

  lemma RunOfTwo(policy: Breaker.Policy, w: World, i: Job, j: Job)
    ensures Run(policy, w, [i, j]) == Step(policy, Step(policy, w, i), j)
  {
    assert [i, j][1..] == [j];
    RunOfOne(policy, Step(policy, w, i), j);
  }

  lemma RunOfThree(policy: Breaker.Policy, w: World, i: Job, j: Job, k: Job)
    ensures Run(policy, w, [i, j, k]) == Step(policy, Step(policy, Step(policy, w, i), j), k)
  {
    assert [i, j, k][1..] == [j, k];
    RunOfTwo(policy, Step(policy, w, i), j, k);
  }

  lemma Replaced(versions: seq<T.Version>, documents: set<(int, string)>, s: Source, t: Source)
    ensures OneSource(versions, documents, s).sources[0 := t] == OneSource(versions, documents, t).sources
  {
  }

  function OneSource(versions: seq<T.Version>, documents: set<(int, string)>, s: Source): World {
    World(versions, documents, map[0 := s])
  }

  // ------------------------------------------------------------------- one digest, two versions

  const FIRST := T.Version(1, 5, ['a'], T.Active, 10, None)
  const SECOND := T.Version(2, 5, ['b'], T.Active, 20, None)
  const ARCHIVED := T.Version(1, 5, ['a'], T.Archived, 10, Some(20))
  const PUBLISHED: Item := Item(IngestionRun.Completed, 1, Some(1), Some(7), Deterministic, false)
  const SKIPPED: Item := Item(IngestionRun.Skipped, 1, Some(1), None, Deterministic, false)
  const AGAIN: Item := Item(IngestionRun.Completed, 1, Some(2), Some(7), Deterministic, false)

  const NEW := OneSource([], {}, Source(Breaker.HEALTHY, [], [FRESH, FRESH, FRESH]))
  const AFTER_FIRST := OneSource([FIRST], {(1, ['u'])}, Source(Breaker.HEALTHY, [Bronze(0, 1)], [PUBLISHED, FRESH, FRESH]))
  const AFTER_SKIP := OneSource([FIRST], {(1, ['u'])}, Source(Breaker.HEALTHY, [Bronze(0, 1)], [PUBLISHED, SKIPPED, FRESH]))

  lemma FirstPublishes()
    ensures Step(POLICY, NEW, JobFor(0, 1, 3, 7, 1, 'a', 10)) == AFTER_FIRST
  {
    var j := JobFor(0, 1, 3, 7, 1, 'a', 10);
    var begun := Begun(NEW.sources[0], j);
    assert begun.items == [FRESH.(status := IngestionRun.Running, attempt := 1), FRESH, FRESH];
    assert NewestFinished(begun.items) == None;
    var p := PublicationOf(j, DeterministicPayload(j));
    assert T.CanPublish([], p);
    assert T.Publish([], p) == [FIRST];
    hide T.CanPublish, T.Publish, PreviousDigest, NewestFinished;
    assert EndingOf(NEW, j) == Finished(IngestionRun.Completed, DeterministicPayload(j));
    assert begun.items[0 := PUBLISHED] == [PUBLISHED, FRESH, FRESH];
    assert Completed(begun, j, IngestionRun.Completed, DeterministicPayload(j)) == AFTER_FIRST.sources[0];
    Replaced([FIRST], {(1, ['u'])}, NEW.sources[0], AFTER_FIRST.sources[0]);
  }

  lemma SkipLosesTheDigest()
    ensures Step(POLICY, AFTER_FIRST, JobFor(1, 1, 3, 7, 9, 'z', 15)) == AFTER_SKIP
  {
    var j := JobFor(1, 1, 3, 7, 9, 'z', 15);
    var begun := Begun(AFTER_FIRST.sources[0], j);
    assert begun.items[1 := SKIPPED] == [PUBLISHED, SKIPPED, FRESH];
    Replaced([FIRST], {(1, ['u'])}, AFTER_FIRST.sources[0], AFTER_SKIP.sources[0]);
    hide Publishing, T.Publish, DocumentsAfter;
    assert EndingOf(AFTER_FIRST, j) == RawUnchanged;
  }

  lemma SameDigestPublishesAgain()
    ensures var w := Step(POLICY, AFTER_SKIP, JobFor(2, 2, 3, 7, 2, 'b', 20));
            0 in w.sources && w.versions == [ARCHIVED, SECOND] && w.sources[0].items == [PUBLISHED, SKIPPED, AGAIN]
  {
    var j := JobFor(2, 2, 3, 7, 2, 'b', 20);
    var begun := Begun(AFTER_SKIP.sources[0], j);
    assert begun.items == [PUBLISHED, SKIPPED, FRESH.(status := IngestionRun.Running, attempt := 1)];
    NewestIs(begun.items, 1);
    var p := PublicationOf(j, DeterministicPayload(j));
    SecondCanPublish(p);
    hide T.CanPublish, T.Publish, PreviousDigest;
    assert EndingOf(AFTER_SKIP, j) == Finished(IngestionRun.Completed, DeterministicPayload(j));
  }

  lemma SecondCanPublish(p: T.Publication)
    requires p == T.Publication(2, 5, ['b'], 20)
    ensures T.CanPublish([FIRST], p) && T.Publish([FIRST], p) == [ARCHIVED, SECOND]
  {
    assert T.IndexOf([FIRST], 2) == 1 + T.IndexOf([FIRST][1..], 2);
    assert FIRST.name[0] != p.name[0];
  }

  /**
    From a source without history: its content is published, skipped for unchanged bytes, and then, in other bytes
    with the same digest, published again.
  */
  lemma OneDigestTwoVersions()
    ensures exists jobs ::
              var w := Run(POLICY, NEW, jobs);
              AllYield(jobs, 0, 7) && w.versions == [ARCHIVED, SECOND]
              && 0 in w.sources && w.sources[0].items == [PUBLISHED, SKIPPED, AGAIN]
  {
    FirstPublishes();
    SkipLosesTheDigest();
    SameDigestPublishesAgain();
    var i, j, k := JobFor(0, 1, 3, 7, 1, 'a', 10), JobFor(1, 1, 3, 7, 9, 'z', 15), JobFor(2, 2, 3, 7, 2, 'b', 20);
    RunOfThree(POLICY, NEW, i, j, k);
    assert AllYield([i, j, k], 0, 7);
    hide Step, Run, AllYield;
    assert Run(POLICY, NEW, [i, j, k]).versions == [ARCHIVED, SECOND];
  }

  // ------------------------------------------------------------------- a second review

  const REVIEWED: Item := Item(IngestionRun.ManualReview, 1, Some(1), Some(7), LlmFallback, true)
  const FAILED: Item := Item(IngestionRun.Failed, 1, None, None, Deterministic, false)
  const SEEDED := OneSource([FIRST], {}, Source(Breaker.HEALTHY, [], [FRESH, FRESH]))
  const AFTER_REVIEW := OneSource([FIRST], {(1, ['u'])}, Source(Breaker.HEALTHY, [Bronze(0, 1)], [REVIEWED, FRESH]))

  lemma FirstReviewFinishes()
    ensures Step(POLICY, SEEDED, JobFor(0, 1, 0, 7, 9, 'z', 30)) == AFTER_REVIEW
  {
    var j := JobFor(0, 1, 0, 7, 9, 'z', 30);
    var p := Payload(Extraction(5, ['u'], 7), 6000, LlmFallback, true);
    assert PayloadOf(j) == Some(p) && LatestVersion([FIRST], 5) == Some(1);
    hide T.CanPublish, T.Publish, PreviousDigest, LatestVersion;
    assert EndingOf(SEEDED, j) == Finished(IngestionRun.ManualReview, p);
    var begun := Begun(SEEDED.sources[0], j);
    assert begun.items[0 := REVIEWED] == [REVIEWED, FRESH];
    assert Completed(begun, j, IngestionRun.ManualReview, p) == AFTER_REVIEW.sources[0];
    Replaced([FIRST], {(1, ['u'])}, SEEDED.sources[0], AFTER_REVIEW.sources[0]);
  }

  lemma SecondReviewRaises()
    ensures Step(POLICY, AFTER_REVIEW, JobFor(1, 2, 0, 8, 9, 'z', 40))
         == OneSource([FIRST], {(1, ['u'])}, Source(Breaker.Health(1, None), [Bronze(0, 1)], [REVIEWED, FAILED]))
  {
    var j := JobFor(1, 2, 0, 8, 9, 'z', 40);
    assert LatestVersion([FIRST], 5) == Some(1);
    hide T.CanPublish, T.Publish, PreviousDigest, LatestVersion;
    assert EndingOf(AFTER_REVIEW, j) == Raises;
    var begun := Begun(AFTER_REVIEW.sources[0], j);
    var s := Source(Breaker.Health(1, None), [Bronze(0, 1)], [REVIEWED, FAILED]);
    assert begun.items[1 := FAILED] == [REVIEWED, FAILED];
    assert Handled(POLICY, begun, j) == s;
    Replaced([FIRST], {(1, ['u'])}, AFTER_REVIEW.sources[0], s);
  }

  /** Two low-confidence downloads of a program that has a version: the first is recorded, the second fails. */
  lemma TwoReviewsOneFailure()
    ensures exists jobs ::
              var w := Run(POLICY, SEEDED, jobs);
              |jobs| == 2 && 0 in w.sources && w.sources[0].items == [REVIEWED, FAILED] && w.sources[0].health == Breaker.Health(1, None)
  {
    FirstReviewFinishes();
    SecondReviewRaises();
    var i, j := JobFor(0, 1, 0, 7, 9, 'z', 30), JobFor(1, 2, 0, 8, 9, 'z', 40);
    RunOfTwo(POLICY, SEEDED, i, j);
    hide Step, Run;
    assert 0 in Run(POLICY, SEEDED, [i, j]).sources && |[i, j]| == 2;
  }
}
