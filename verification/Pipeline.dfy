/**
  Processing one item of an ingestion run (apps/ingestion/services.py, publisher.py): from the quarantine gate
  to a published program version, with rollback when anything raises.
*/
module Pipeline {
  import opened Common
  import Breaker
  import IngestionRun
  import T = Timeline

  type Status = IngestionRun.ItemStatus
  type SourceId = int
  type Digest = int

  datatype ParserMode = Deterministic | LlmFallback

  /** A source's runs items in creation order; the digests are taken to be injective. */
  datatype Item = Item(status: Status, attempt: nat, raw: Option<Digest>, semantic: Option<Digest>,
                       mode: ParserMode, manualReview: bool)

  datatype Bronze = Bronze(item: nat, raw: Digest)

  datatype Source = Source(health: Breaker.Health, bronze: seq<Bronze>, items: seq<Item>)

  /** documents holds the keys of the source documents that belong to a version. */
  datatype World = World(versions: seq<T.Version>, documents: set<(int, string)>, sources: map<SourceId, Source>)

  /** What an extractor makes of the content. */
  datatype Extraction = Extraction(program: int, url: string, semantic: Digest)

  datatype Handler = HandledFully | SourceOnly | NotHandled

  /**
    One execution of the step, with what the outside world contributes: the instants at which the gate is read,
    the version is dated and the failure is stamped, the bytes fetched, the extractions, whether something
    raises in between, and how far the error handler gets. Confidence is in ten-thousandths.
  */
  datatype Job = Job(source: SourceId, item: nat, attempt: nat, threshold: int, gate: int, now: int, end: int,
                     fault: bool, handler: Handler, raw: Digest, signals: nat, extracted: Extraction,
                     fallback: Option<Extraction>, versionId: int, versionName: string)

  datatype Payload = Payload(extraction: Extraction, confidence: int, mode: ParserMode, manualReview: bool)

  datatype Ending = Gated | RawUnchanged | Finished(status: Status, payload: Payload) | Raises

  // ------------------------------------------------------------------- the decisions

  function Confidence(signals: nat): int {
    if 5500 + 1000 * signals < 9500 then 5500 + 1000 * signals else 9500
  }

  function DeterministicPayload(j: Job): Payload {
    var c := Confidence(j.signals);
    Payload(j.extracted, c, Deterministic, c < j.threshold)
  }

  /** None where the fallback extractor raises. */
  function PayloadOf(j: Job): Option<Payload> {
    if DeterministicPayload(j).confidence >= j.threshold then Some(DeterministicPayload(j))
    else if j.fallback.Some? then Some(Payload(j.fallback.value, 6000, LlmFallback, true))
    else None
  }

  predicate CanAutoPublish(j: Job, p: Payload) {
    !p.manualReview && p.confidence >= j.threshold
  }

  /** The digest of the newest item of the source that has finished. */
  function PreviousDigest(items: seq<Item>): Option<Digest> {
    if items == [] then None
    else if IngestionRun.Succeeded(items[|items| - 1].status) then items[|items| - 1].semantic
    else PreviousDigest(items[..|items| - 1])
  }

  predicate Changed(items: seq<Item>, p: Payload) {
    PreviousDigest(items) != Some(p.extraction.semantic)
  }

  /** The version of a program created last, archived or not. */
  function LatestVersion(versions: seq<T.Version>, program: int): Option<int> {
    if versions == [] then None
    else if versions[|versions| - 1].program == program then Some(versions[|versions| - 1].id)
    else LatestVersion(versions[..|versions| - 1], program)
  }

  function PublicationOf(j: Job, p: Payload): T.Publication {
    T.Publication(j.versionId, p.extraction.program, j.versionName, j.now)
  }

  function StatusFor(can: bool, changed: bool): Status {
    if !can then IngestionRun.ManualReview else if !changed then IngestionRun.Skipped else IngestionRun.Completed
  }

  /** The version a source document would be attached to; a document of no version is never refused. */
  predicate DocumentTaken(w: World, version: Option<int>, url: string) {
    version.Some? && (version.value, url) in w.documents
  }

  function Publishing(w: World, j: Job, p: Payload, items: seq<Item>): Ending {
    var can, changed := CanAutoPublish(j, p), Changed(items, p);
    if can && changed then
      if T.CanPublish(w.versions, PublicationOf(j, p)) && (j.versionId, p.extraction.url) !in w.documents
      then Finished(IngestionRun.Completed, p) else Raises
    else if DocumentTaken(w, LatestVersion(w.versions, p.extraction.program), p.extraction.url) then Raises
    else Finished(StatusFor(can, changed), p)
  }

  predicate Exists(w: World, j: Job) {
    j.source in w.sources && j.item < |w.sources[j.source].items|
  }

  function Begun(s: Source, j: Job): Source
    requires j.item < |s.items|
  {
    s.(items := s.items[j.item := s.items[j.item].(status := IngestionRun.Running, attempt := j.attempt)])
  }

  function EndingOf(w: World, j: Job): Ending
    requires Exists(w, j)
  {
    var s := w.sources[j.source];
    if Breaker.Blocked(s.health, j.gate) then Gated
    else if j.fault then Raises
    else if s.bronze != [] && s.bronze[|s.bronze| - 1].raw == j.raw then RawUnchanged
    else if (exists k :: 0 <= k < |s.bronze| && s.bronze[k].item == j.item) || PayloadOf(j).None? then Raises
    else Publishing(w, j, PayloadOf(j).value, Begun(s, j).items)
  }

  // ------------------------------------------------------------------- the effects

  function SetItem(s: Source, i: nat, item: Item): Source
    requires i < |s.items|
  {
    s.(items := s.items[i := item])
  }

  /** The item and the source after the error handler. */
  function Handled(policy: Breaker.Policy, s: Source, j: Job): Source
    requires j.item < |s.items|
  {
    if j.handler.NotHandled? then s
    else
      var h := Breaker.Fail(policy, s.health, j.end);
      var status := if h.failures >= policy.threshold then IngestionRun.Quarantined else IngestionRun.Failed;
      s.(health := h, items := if j.handler.SourceOnly? then s.items
                               else s.items[j.item := s.items[j.item].(status := status)])
  }

  function Completed(s: Source, j: Job, status: Status, p: Payload): Source
    requires j.item < |s.items|
  {
    Source(Breaker.HEALTHY, s.bronze + [Bronze(j.item, j.raw)],
           s.items[j.item := Item(status, s.items[j.item].attempt, Some(j.raw), Some(p.extraction.semantic),
                                  p.mode, p.manualReview)])
  }

  function DocumentsAfter(w: World, j: Job, status: Status, p: Payload): set<(int, string)> {
    var version := if status.Completed? then Some(j.versionId) else LatestVersion(w.versions, p.extraction.program);
    if version.Some? then w.documents + {(version.value, p.extraction.url)} else w.documents
  }

  function Step(policy: Breaker.Policy, w: World, j: Job): World {
    if !Exists(w, j) then w
    else
      var s := Begun(w.sources[j.source], j);
      var item := s.items[j.item];
      match EndingOf(w, j)
      case Gated => w.(sources := w.sources[j.source := SetItem(s, j.item, item.(status := IngestionRun.Quarantined))])
      case RawUnchanged =>
        w.(sources := w.sources[j.source := SetItem(s, j.item, item.(status := IngestionRun.Skipped, raw := Some(j.raw)))])
      case Raises => w.(sources := w.sources[j.source := Handled(policy, s, j)])
      case Finished(status, p) =>
        World(if status.Completed? then T.Publish(w.versions, PublicationOf(j, p)) else w.versions,
              DocumentsAfter(w, j, status, p),
              w.sources[j.source := Completed(s, j, status, p)])
  }

  // ------------------------------------------------------------------- the service

  class IngestionPipelineService {
    const policy: Breaker.Policy
    var versions: seq<T.Version>
    var documents: set<(int, string)>
    var sources: map<SourceId, Source>
    var committed: World

    constructor (policy: Breaker.Policy, w: World)
      ensures this.policy == policy && Session() == committed == w
    {
      this.policy := policy;
      versions, documents, sources, committed := w.versions, w.documents, w.sources, w;
    }

    /** What the open session sees. */
    function Session(): World reads this { World(versions, documents, sources) }

    method Commit()
      modifies this
      ensures committed == Session() == old(Session())
    {
      committed := World(versions, documents, sources);
    }

    method Rollback()
      modifies this
      ensures Session() == committed == old(committed)
    {
      versions, documents, sources := committed.versions, committed.documents, committed.sources;
    }

    method SetSource(id: SourceId, s: Source)
      modifies this
      ensures Session() == old(Session()).(sources := old(sources)[id := s]) && committed == old(committed)
    {
      sources := sources[id := s];
    }

    /** Publishes when allowed and changed; false where a constraint refuses a row, with the session in disarray. */
    method Publish(j: Job, p: Payload, items: seq<Item>) returns (ok: bool)
      modifies this
      ensures sources == old(sources) && committed == old(committed)
      ensures ok <==> Publishing(old(Session()), j, p, items).Finished?
      ensures ok ==> var status := StatusFor(CanAutoPublish(j, p), Changed(items, p));
                     versions == (if status.Completed? then T.Publish(old(versions), PublicationOf(j, p)) else old(versions))
                     && documents == DocumentsAfter(old(Session()), j, status, p)
    {
      hide T.Publish, T.CanPublish, LatestVersion, PreviousDigest;
      var attached := LatestVersion(versions, p.extraction.program);
      if CanAutoPublish(j, p) && Changed(items, p) {
        var publication := PublicationOf(j, p);
        if !T.CanPublish(versions, publication) {
          return false;
        }
        versions := T.Publish(versions, publication);
        attached := Some(j.versionId);
      }
      if attached.Some? {
        if (attached.value, p.extraction.url) in documents {
          return false;
        }
        documents := documents + {(attached.value, p.extraction.url)};
      }
      ok := true;
    }

    /** The step itself; None where it raises, with whatever it has written since its first commit. */
    method ExecuteProcessing(j: Job) returns (status: Option<Status>)
      requires Exists(Session(), j)
      modifies this
      ensures var before := old(Session());
              match EndingOf(before, j)
              case Raises =>
                status == None
                && committed == before.(sources := before.sources[j.source := Begun(before.sources[j.source], j)])
              case Gated => status == Some(IngestionRun.Quarantined) && committed == Session() == Step(policy, before, j)
              case RawUnchanged => status == Some(IngestionRun.Skipped) && committed == Session() == Step(policy, before, j)
              case Finished(s, _) => status == Some(s) && committed == Session() == Step(policy, before, j)
    {
      hide T.Publish, T.CanPublish, LatestVersion, PreviousDigest, PayloadOf, CanAutoPublish;
      var s := Begun(sources[j.source], j);
      SetSource(j.source, s);
      Commit();
      var item := s.items[j.item];
      if Breaker.Blocked(s.health, j.gate) {
        SetSource(j.source, SetItem(s, j.item, item.(status := IngestionRun.Quarantined)));
        Commit();
        return Some(IngestionRun.Quarantined);
      }
      if j.fault {
        return None;
      }
      if s.bronze != [] && s.bronze[|s.bronze| - 1].raw == j.raw {
        SetSource(j.source, SetItem(s, j.item, item.(status := IngestionRun.Skipped, raw := Some(j.raw))));
        Commit();
        return Some(IngestionRun.Skipped);
      }
      if exists k :: 0 <= k < |s.bronze| && s.bronze[k].item == j.item {
        return None;
      }
      var payload := PayloadOf(j);
      if payload.None? {
        return None;
      }
      var ok := Publish(j, payload.value, s.items);
      if !ok {
        return None;
      }
      var outcome := StatusFor(CanAutoPublish(j, payload.value), Changed(s.items, payload.value));
      SetSource(j.source, Completed(s, j, outcome, payload.value));
      Commit();
      return Some(outcome);
    }

    /** The whole task step: either it takes effect at once, or the rollback and the handler do. */
    method ProcessRunItem(j: Job) returns (status: Option<Status>)
      requires Exists(Session(), j)
      modifies this
      ensures Session() == committed == Step(policy, old(Session()), j)
      ensures status.None? <==> EndingOf(old(Session()), j).Raises?
      ensures status.Some? ==> Session().sources[j.source].items[j.item].status == status.value
    {
      hide Publishing, Breaker.Fail, T.Publish, DocumentsAfter, PayloadOf;
      status := ExecuteProcessing(j);
      if status.None? {
        Rollback();
        SetSource(j.source, Handled(policy, sources[j.source], j));
        Commit();
      }
    }
  }
}
