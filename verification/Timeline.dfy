/**
  Program versions and their half-open validity periods.  The administration
  service and the ingestion publisher write them, scoring looks one up; the
  lookup relies on the active versions of a program never overlapping.
*/
module Timeline {
  import opened Common

  const END_OF_TIME := 253_402_300_799_999_999

  datatype Status = Draft | Active | Archived

  datatype Version = Version(id: int, program: int, name: string, status: Status, from: int, to: Option<int>)

  // ------------------------------------------------------------- the queries

  function EndOf(v: Version): int {
    if v.to.None? then END_OF_TIME else v.to.value
  }

  /** The table's check constraint. */
  predicate RangeOk(v: Version) {
    v.to.None? || v.to.value > v.from
  }

  /** The overlap test of the service's query, target first. */
  predicate Overlaps(target: Version, w: Version) {
    w.from < EndOf(target) && EndOf(w) > target.from
  }

  /** The instant test of the scoring lookup. */
  predicate Covers(v: Version, at: int) {
    v.from <= at && (v.to.None? || v.to.value > at)
  }

  predicate Conflicts(target: Version, w: Version) {
    w.program == target.program && w.status == Active && w.id != target.id && Overlaps(target, w)
  }

  function Conflicting(vs: seq<Version>, target: Version): seq<Version> {
    if vs == [] then []
    else (if Conflicts(target, vs[0]) then [vs[0]] else []) + Conflicting(vs[1..], target)
  }

  /** The query wants at most one row and raises when there are two. */
  datatype OverlapResult = NoOverlap | Overlap(version: Version) | TooMany

  function FindOverlap(vs: seq<Version>, target: Version): OverlapResult {
    var found := Conflicting(vs, target);
    if |found| == 0 then NoOverlap else if |found| == 1 then Overlap(found[0]) else TooMany
  }

  /** The scoring lookup: the active version covering an instant that starts last. */
  function Lookup(vs: seq<Version>, program: int, at: int): (found: Option<Version>)
    ensures found.Some? ==> found.value in vs && found.value.program == program
                            && found.value.status == Active && Covers(found.value, at)
    ensures found.None? ==> forall v :: v in vs && v.program == program && v.status == Active ==> !Covers(v, at)
  {
    if vs == [] then None
    else
      var rest := Lookup(vs[1..], program, at);
      if vs[0].program == program && vs[0].status == Active && Covers(vs[0], at)
         && (rest.None? || vs[0].from >= rest.value.from)
      then Some(vs[0]) else rest
  }

  // --------------------------------------------------------------- the steps

  datatype Patch = Patch(name: Option<string>, status: Option<Status>, from: Option<int>, to: Option<Option<int>>)

  function Patched(v: Version, p: Patch): Version {
    Version(v.id, v.program, if p.name.Some? then p.name.value else v.name,
            if p.status.Some? then p.status.value else v.status,
            if p.from.Some? then p.from.value else v.from,
            if p.to.Some? then p.to.value else v.to)
  }

  /** The index of the row with an id, or the length when there is none. */
  function IndexOf(vs: seq<Version>, id: int): (i: nat)
    ensures i <= |vs|
    ensures i < |vs| ==> vs[i].id == id
    ensures forall j :: 0 <= j < i ==> vs[j].id != id
  {
    if vs == [] || vs[0].id == id then 0 else 1 + IndexOf(vs[1..], id)
  }

  predicate NameTaken(vs: seq<Version>, v: Version) {
    exists i :: 0 <= i < |vs| && vs[i].id != v.id && vs[i].program == v.program && vs[i].name == v.name
  }

  /** Whether storing v, over its old row or as a new one, passes the constraints and the overlap rule. */
  predicate Accepts(vs: seq<Version>, v: Version) {
    RangeOk(v) && !NameTaken(vs, v) && (v.status == Active ==> FindOverlap(vs, v) == NoOverlap)
  }

  function Create(vs: seq<Version>, v: Version): seq<Version> {
    if IndexOf(vs, v.id) == |vs| && Accepts(vs, v) then vs + [v] else vs
  }

  function Update(vs: seq<Version>, id: int, p: Patch): seq<Version> {
    var i := IndexOf(vs, id);
    if i < |vs| && Accepts(vs, Patched(vs[i], p)) then vs[i := Patched(vs[i], p)] else vs
  }

  function ArchivedOthers(v: Version, target: Version): Version {
    if v.program == target.program && v.status == Active && v.id != target.id then v.(status := Archived) else v
  }

  function Forced(vs: seq<Version>, i: nat): (out: seq<Version>)
    requires i < |vs|
    ensures |out| == |vs|
  {
    seq(|vs|, j requires 0 <= j < |vs| => if j == i then vs[i].(status := Active) else ArchivedOthers(vs[j], vs[i]))
  }

  /** Forcing archives every other active version of the program, overlapping or not. */
  function Activate(vs: seq<Version>, id: int, force: bool): seq<Version> {
    var i := IndexOf(vs, id);
    if i == |vs| then vs
    else
      match FindOverlap(vs, vs[i])
      case TooMany => vs
      case NoOverlap => vs[i := vs[i].(status := Active)]
      case Overlap(_) =>
        if !force then vs
        else Forced(vs, i)
  }

  predicate CurrentIn(v: Version, program: int) {
    v.program == program && v.status == Active
  }

  function Closed(v: Version, program: int, now: int): Version {
    if CurrentIn(v, program) then v.(status := Archived, to := Some(now)) else v
  }

  datatype Publication = Publication(id: int, program: int, name: string, now: int)

  function Published(p: Publication): Version {
    Version(p.id, p.program, p.name, Active, p.now, None)
  }

  /** A publication is refused by the constraints when an active version starts at or after it. */
  predicate CanPublish(vs: seq<Version>, p: Publication) {
    IndexOf(vs, p.id) == |vs| && !NameTaken(vs, Published(p))
    && forall i :: 0 <= i < |vs| && CurrentIn(vs[i], p.program) ==> vs[i].from < p.now
  }

  function Publish(vs: seq<Version>, p: Publication): seq<Version> {
    if CanPublish(vs, p)
    then seq(|vs|, i requires 0 <= i < |vs| => Closed(vs[i], p.program, p.now)) + [Published(p)]
    else vs
  }

  datatype Step = CreateStep(version: Version) | UpdateStep(id: int, patch: Patch)
                | ActivateStep(target: int, force: bool) | PublishStep(publication: Publication)

  function Next(vs: seq<Version>, step: Step): seq<Version> {
    match step
    case CreateStep(v) => Create(vs, v)
    case UpdateStep(id, patch) => Update(vs, id, patch)
    case ActivateStep(id, force) => Activate(vs, id, force)
    case PublishStep(p) => Publish(vs, p)
  }

  function Run(steps: seq<Step>): seq<Version> {
    if steps == [] then [] else Next(Run(steps[..|steps| - 1]), steps[|steps| - 1])
  }

  // ----------------------------------------------------------- the invariant

  ghost predicate Disjoint(vs: seq<Version>) {
    forall i, j :: 0 <= i < j < |vs| && CurrentIn(vs[i], vs[j].program) && vs[j].status == Active ==>
      !Overlaps(vs[i], vs[j])
  }

  ghost predicate Keyed(vs: seq<Version>) {
    (forall i, j :: 0 <= i < j < |vs| ==> vs[i].id != vs[j].id)
    && (forall i :: 0 <= i < |vs| ==> RangeOk(vs[i]))
  }

  lemma {:induction false} ConflictingMembers(vs: seq<Version>, target: Version)
    ensures forall v :: v in Conflicting(vs, target) <==> v in vs && Conflicts(target, v)
  {
    if vs != [] {
      ConflictingMembers(vs[1..], target);
      assert vs == [vs[0]] + vs[1..];
    }
  }

  /** The overlap test holds exactly when two periods share an instant. */
  lemma OverlapIffSharedInstant(v: Version, w: Version)
    requires RangeOk(v) && RangeOk(w) && EndOf(v) <= END_OF_TIME && EndOf(w) <= END_OF_TIME
    ensures Overlaps(v, w) <==> exists at :: at < END_OF_TIME && Covers(v, at) && Covers(w, at)
  {
    if Overlaps(v, w) {
      var at := Max(v.from, w.from);
      assert at < END_OF_TIME && Covers(v, at) && Covers(w, at);
    }
  }

  lemma NoOverlapMeansApart(vs: seq<Version>, v: Version)
    requires FindOverlap(vs, v) == NoOverlap
    ensures forall i :: 0 <= i < |vs| && CurrentIn(vs[i], v.program) && vs[i].id != v.id ==>
              !Overlaps(v, vs[i]) && !Overlaps(vs[i], v)
  {
    ConflictingMembers(vs, v);
    forall i | 0 <= i < |vs| && CurrentIn(vs[i], v.program) && vs[i].id != v.id
      ensures !Overlaps(v, vs[i])
    {
      assert vs[i] !in Conflicting(vs, v);
    }
  }

  lemma CreateKeepsDisjoint(vs: seq<Version>, v: Version)
    requires Keyed(vs) && Disjoint(vs)
    ensures Keyed(Create(vs, v)) && Disjoint(Create(vs, v))
  {
    if Accepts(vs, v) && v.status == Active {
      NoOverlapMeansApart(vs, v);
    }
  }

  lemma UpdateKeepsDisjoint(vs: seq<Version>, id: int, patch: Patch)
    requires Keyed(vs) && Disjoint(vs)
    ensures Keyed(Update(vs, id, patch)) && Disjoint(Update(vs, id, patch))
  {
    var i := IndexOf(vs, id);
    if i < |vs| && Accepts(vs, Patched(vs[i], patch)) {
      if Patched(vs[i], patch).status == Active {
        NoOverlapMeansApart(vs, Patched(vs[i], patch));
      }
      ReplacedKeepsDisjoint(vs, i, Patched(vs[i], patch));
    }
  }

  lemma ReplacedKeepsDisjoint(vs: seq<Version>, i: nat, v: Version)
    requires Keyed(vs) && Disjoint(vs) && i < |vs| && v.id == vs[i].id && RangeOk(v)
    requires v.status == Active ==> forall j :: 0 <= j < |vs| && CurrentIn(vs[j], v.program) && vs[j].id != v.id ==>
               !Overlaps(v, vs[j]) && !Overlaps(vs[j], v)
    ensures Keyed(vs[i := v]) && Disjoint(vs[i := v])
  {
  }

  lemma ActivateKeepsDisjoint(vs: seq<Version>, id: int, force: bool)
    requires Keyed(vs) && Disjoint(vs)
    ensures Keyed(Activate(vs, id, force)) && Disjoint(Activate(vs, id, force))
  {
    var i := IndexOf(vs, id);
    if i < |vs| {
      match FindOverlap(vs, vs[i])
      case TooMany =>
      case NoOverlap =>
        NoOverlapMeansApart(vs, vs[i]);
        ReplacedKeepsDisjoint(vs, i, vs[i].(status := Active));
      case Overlap(_) =>
        if force {
          ForcedLeavesOneActive(vs, i);
        }
    }
  }

  lemma ForcedLeavesOneActive(vs: seq<Version>, i: nat)
    requires Keyed(vs) && Disjoint(vs) && i < |vs|
    ensures Keyed(Forced(vs, i)) && Disjoint(Forced(vs, i))
  {
    var after := Forced(vs, i);
    assert forall j :: 0 <= j < |vs| && j != i && after[j].status == Active ==>
             after[j] == vs[j] && vs[j].program != vs[i].program;
  }

  lemma PublishKeepsDisjoint(vs: seq<Version>, p: Publication)
    requires Keyed(vs) && Disjoint(vs)
    ensures Keyed(Publish(vs, p)) && Disjoint(Publish(vs, p))
  {
  }

  /**
    Whatever mix of creations, updates, activations and publications, the active
    versions of one program never overlap.
  */
  lemma {:induction false} ActiveVersionsAreDisjoint(steps: seq<Step>)
    ensures Keyed(Run(steps)) && Disjoint(Run(steps))
  {
    if steps != [] {
      var vs := Run(steps[..|steps| - 1]);
      ActiveVersionsAreDisjoint(steps[..|steps| - 1]);
      match steps[|steps| - 1]
      case CreateStep(v) => CreateKeepsDisjoint(vs, v);
      case UpdateStep(id, patch) => UpdateKeepsDisjoint(vs, id, patch);
      case ActivateStep(id, force) => ActivateKeepsDisjoint(vs, id, force);
      case PublishStep(p) => PublishKeepsDisjoint(vs, p);
    }
  }

  /** So the lookup has at most one candidate, and its ordering decides nothing. */
  lemma LookupIsUnambiguous(steps: seq<Step>, program: int, at: int, i: nat, j: nat)
    requires at < END_OF_TIME
    requires i < |Run(steps)| && CurrentIn(Run(steps)[i], program) && Covers(Run(steps)[i], at)
    requires j < |Run(steps)| && CurrentIn(Run(steps)[j], program) && Covers(Run(steps)[j], at)
    ensures i == j
    ensures Lookup(Run(steps), program, at) == Some(Run(steps)[i])
  {
    ActiveVersionsAreDisjoint(steps);
    var vs := Run(steps);
    var found := Lookup(vs, program, at);
    assert vs[i] in vs;
    var k :| 0 <= k < |vs| && vs[k] == found.value;
    CoveringIsUnique(vs, program, at, i, j);
    CoveringIsUnique(vs, program, at, i, k);
  }

  lemma CoveringIsUnique(vs: seq<Version>, program: int, at: int, i: nat, j: nat)
    requires Disjoint(vs) && at < END_OF_TIME
    requires i < |vs| && CurrentIn(vs[i], program) && Covers(vs[i], at)
    requires j < |vs| && CurrentIn(vs[j], program) && Covers(vs[j], at)
    ensures i == j
  {
    assert Overlaps(vs[i], vs[j]) && Overlaps(vs[j], vs[i]);
  }

  // -------------------------------------------------- forcing an activation

  /**
    Forcing archives conflicting versions only while there is one: an activation,
    forced or not, takes effect exactly when at most one active version of the
    program overlaps the target, none if it is not forced.
  */
  lemma ActivationTakesEffect(vs: seq<Version>, id: int, force: bool)
    requires Keyed(vs) && Disjoint(vs) && IndexOf(vs, id) < |vs|
    ensures var i, after := IndexOf(vs, id), Activate(vs, id, force);
            if |Conflicting(vs, vs[i])| <= (if force then 1 else 0) then
              |after| == |vs| && after[i] == vs[i].(status := Active) && Disjoint(after)
              && forall j :: 0 <= j < |vs| && j != i ==>
                   after[j] == if Conflicting(vs, vs[i]) == [] then vs[j] else ArchivedOthers(vs[j], vs[i])
            else after == vs
  {
    ActivateKeepsDisjoint(vs, id, force);
  }

  const FIRST := Version(1, 0, "1", Active, 0, Some(10))
  const SECOND := Version(2, 0, "2", Active, 10, Some(20))
  const DRAFT := Version(3, 0, "3", Draft, 5, None)

  lemma ThreeVersionsAreStored()
    ensures Run([CreateStep(FIRST)] + [CreateStep(SECOND)] + [CreateStep(DRAFT)]) == [FIRST, SECOND, DRAFT]
  {
    assert FIRST.name[0] != SECOND.name[0] && FIRST.name[0] != DRAFT.name[0] && SECOND.name[0] != DRAFT.name[0];
    RunOfLonger([], CreateStep(FIRST));
    assert [] + [CreateStep(FIRST)] == [CreateStep(FIRST)];
    assert Run([CreateStep(FIRST)]) == [FIRST];
    RunOfLonger([CreateStep(FIRST)], CreateStep(SECOND));
    ConflictingOf(FIRST, [], SECOND);
    assert [FIRST] + [] == [FIRST];
    assert Create([FIRST], SECOND) == [FIRST, SECOND];
    RunOfLonger([CreateStep(FIRST)] + [CreateStep(SECOND)], CreateStep(DRAFT));
  }

  lemma BothConflictWithTheDraft()
    ensures FindOverlap([FIRST, SECOND, DRAFT], DRAFT) == TooMany && IndexOf([FIRST, SECOND, DRAFT], 3) == 2
  {
    ConflictingOf(DRAFT, [], DRAFT);
    ConflictingOf(SECOND, [DRAFT] + [], DRAFT);
    ConflictingOf(FIRST, [SECOND] + ([DRAFT] + []), DRAFT);
    assert [FIRST, SECOND, DRAFT] == [FIRST] + ([SECOND] + ([DRAFT] + []));
    assert [FIRST, SECOND, DRAFT][2].id == 3;
  }

  /** Two short active versions are enough to make a forced activation over both fail. */
  lemma ForcingCanFail()
    ensures exists steps: seq<Step>, id: int ::
              IndexOf(Run(steps), id) < |Run(steps)| && Run(steps)[IndexOf(Run(steps), id)].status == Draft
              && Activate(Run(steps), id, true) == Run(steps)
  {
    hide Run;
    ThreeVersionsAreStored();
    BothConflictWithTheDraft();
    var steps := [CreateStep(FIRST)] + [CreateStep(SECOND)] + [CreateStep(DRAFT)];
    assert Run(steps)[IndexOf(Run(steps), 3)].status == Draft;
    assert Activate(Run(steps), 3, true) == Run(steps);
  }

  lemma ConflictingOf(v: Version, rest: seq<Version>, target: Version)
    ensures Conflicting([v] + rest, target) == (if Conflicts(target, v) then [v] else []) + Conflicting(rest, target)
  {
    assert ([v] + rest)[1..] == rest;
  }

  lemma RunOfLonger(steps: seq<Step>, step: Step)
    ensures Run(steps + [step]) == Next(Run(steps), step)
  {
    assert (steps + [step])[..|steps|] == steps;
  }

  // ------------------------------------------------------------ publications

  /** After a publication the lookup finds the new version from its instant on, and nothing before it. */
  lemma LookupAfterPublish(vs: seq<Version>, p: Publication, at: int)
    requires CanPublish(vs, p)
    ensures Lookup(Publish(vs, p), p.program, at) == if p.now <= at then Some(Published(p)) else None
  {
    var after := Publish(vs, p);
    assert after[|vs|] == Published(p);
    var found := Lookup(after, p.program, at);
    if found.Some? {
      var k :| 0 <= k < |after| && after[k] == found.value;
      assert k == |vs|;
    } else {
      assert Published(p) in after;
    }
  }

  function PublishAll(vs: seq<Version>, ps: seq<Publication>): seq<Version> {
    if ps == [] then vs else Publish(PublishAll(vs, ps[..|ps| - 1]), ps[|ps| - 1])
  }

  /** The row a publication has left once the next one, if any, has closed it. */
  function Tile(ps: seq<Publication>, i: nat): Version
    requires i < |ps|
  {
    if i + 1 < |ps| then Published(ps[i]).(status := Archived, to := Some(ps[i + 1].now)) else Published(ps[i])
  }

  ghost predicate PublicationRun(ps: seq<Publication>, program: int) {
    (forall i :: 0 <= i < |ps| ==> ps[i].program == program)
    && (forall i, j :: 0 <= i < j < |ps| ==> ps[i].now < ps[j].now && ps[i].id != ps[j].id && ps[i].name != ps[j].name)
  }

  /** From an empty table, publications alone leave exactly one tile each. */
  lemma {:induction false} PublicationsTile(ps: seq<Publication>, program: int)
    requires PublicationRun(ps, program)
    ensures |PublishAll([], ps)| == |ps|
    ensures forall i :: 0 <= i < |ps| ==> PublishAll([], ps)[i] == Tile(ps, i)
  {
    if ps != [] {
      var prior := ps[..|ps| - 1];
      PublicationsTile(prior, program);
      NextTile(PublishAll([], prior), ps, program);
    }
  }

  lemma NextTile(vs: seq<Version>, ps: seq<Publication>, program: int)
    requires PublicationRun(ps, program) && |vs| + 1 == |ps|
    requires forall i :: 0 <= i < |vs| ==> vs[i] == Tile(ps[..|vs|], i)
    ensures |Publish(vs, ps[|vs|])| == |ps|
    ensures forall i :: 0 <= i < |ps| ==> Publish(vs, ps[|vs|])[i] == Tile(ps, i)
  {
    var n, last := |vs|, ps[|vs|];
    forall i | 0 <= i < n
      ensures vs[i].id != last.id && vs[i].name != last.name && vs[i].from < last.now
    {
      assert vs[i] == Tile(ps[..n], i);
    }
    assert CanPublish(vs, last);
  }

  ghost predicate OnlyTile(vs: seq<Version>, at: int, i: nat) {
    i < |vs| && Covers(vs[i], at) && forall j :: 0 <= j < |vs| && Covers(vs[j], at) ==> j == i
  }

  /** The tiles leave no gap and do not overlap: from the first publication on, each instant is in exactly one. */
  lemma EveryInstantHasOneTile(ps: seq<Publication>, program: int, at: int)
    requires PublicationRun(ps, program) && ps != [] && ps[0].now <= at
    ensures exists i :: OnlyTile(PublishAll([], ps), at, i)
  {
    PublicationsTile(ps, program);
    var i := TileAt(ps, program, at);
    assert OnlyTile(PublishAll([], ps), at, i);
  }

  lemma TileAt(ps: seq<Publication>, program: int, at: int) returns (i: nat)
    requires PublicationRun(ps, program) && ps != [] && ps[0].now <= at
    ensures i < |ps| && Covers(Tile(ps, i), at)
    ensures forall j :: 0 <= j < |ps| && Covers(Tile(ps, j), at) ==> j == i
  {
    i := 0;
    while i + 1 < |ps| && ps[i + 1].now <= at
      invariant i < |ps| && ps[i].now <= at
    {
      i := i + 1;
    }
    forall j | 0 <= j < |ps| && Covers(Tile(ps, j), at)
      ensures j == i
    {
      assert j < i ==> j + 1 <= i;
      assert i < j ==> i + 1 <= j;
      assert j + 1 < |ps| ==> at < ps[j + 1].now;
    }
  }

  // --------------------------------------------------------------- the stores

  datatype Reply = Stored | NotFound | Conflict | Broken

  /** The program versions as both services change them, with a rollback where they roll back. */
  class VersionStore {
    var versions: seq<Version>

    constructor ()
      ensures versions == []
    {
      versions := [];
    }

    /** Conflict is the overlap answer; Broken a duplicate, a constraint violation or an ambiguous overlap. */
    method CreateProgramVersion(v: Version) returns (reply: Reply)
      modifies this
      ensures versions == Create(old(versions), v)
      ensures reply == Stored <==> versions == old(versions) + [v]
    {
      var saved := versions;
      if IndexOf(versions, v.id) < |versions| || NameTaken(versions, v) {
        return Broken;
      }
      versions := versions + [v];
      if v.status == Active {
        ConflictingAppended(saved, v, v);
        match FindOverlap(versions, v)
        case NoOverlap =>
        case Overlap(_) =>
          versions := saved;
          return Conflict;
        case TooMany =>
          versions := saved;
          return Broken;
      }
      if !RangeOk(v) {
        versions := saved;
        return Broken;
      }
      return Stored;
    }

    method UpdateProgramVersion(id: int, p: Patch) returns (reply: Reply)
      requires Keyed(versions)
      modifies this
      ensures versions == Update(old(versions), id, p)
      ensures reply == NotFound <==> IndexOf(old(versions), id) == |old(versions)|
    {
      var saved := versions;
      var i := IndexOf(versions, id);
      if i == |versions| {
        return NotFound;
      }
      var v := Patched(versions[i], p);
      if !RangeOk(v) || NameTaken(versions, v) {
        return Broken;
      }
      versions := versions[i := v];
      if v.status == Active {
        ConflictingReplaced(saved, i, v, v);
        match FindOverlap(versions, v)
        case NoOverlap =>
        case Overlap(_) =>
          versions := saved;
          return Conflict;
        case TooMany =>
          versions := saved;
          return Broken;
      }
      return Stored;
    }

    method ActivateProgramVersion(id: int, force: bool) returns (reply: Reply)
      requires Keyed(versions)
      modifies this
      ensures versions == Activate(old(versions), id, force)
    {
      var i := IndexOf(versions, id);
      if i == |versions| {
        return NotFound;
      }
      var target := versions[i];
      var overlap := FindOverlap(versions, target);
      if overlap.TooMany? {
        return Broken;
      }
      if overlap.Overlap? && !force {
        return Conflict;
      }
      if overlap.Overlap? {
        for j := 0 to |versions|
          invariant |versions| == |old(versions)|
          invariant forall k :: 0 <= k < j ==> versions[k] == ArchivedOthers(old(versions)[k], target)
          invariant forall k :: j <= k < |versions| ==> versions[k] == old(versions)[k]
        {
          if CurrentIn(versions[j], target.program) && versions[j].id != target.id {
            versions := versions[j := versions[j].(status := Archived)];
          }
        }
      }
      versions := versions[i := versions[i].(status := Active)];
      return Stored;
    }

    /** The publisher's archive loop and insertion; a constraint violation undoes both. */
    method PublishVersion(p: Publication) returns (published: bool)
      modifies this
      ensures versions == Publish(old(versions), p)
      ensures published <==> CanPublish(old(versions), p)
    {
      var saved := versions;
      var ok := IndexOf(versions, p.id) == |versions| && !NameTaken(versions, Published(p));
      for i := 0 to |versions|
        invariant |versions| == |saved|
        invariant forall k :: 0 <= k < i ==> versions[k] == Closed(saved[k], p.program, p.now)
        invariant forall k :: i <= k < |versions| ==> versions[k] == saved[k]
        invariant ok <==> IndexOf(saved, p.id) == |saved| && !NameTaken(saved, Published(p))
                          && forall k :: 0 <= k < i && CurrentIn(saved[k], p.program) ==> saved[k].from < p.now
      {
        if CurrentIn(versions[i], p.program) {
          versions := versions[i := versions[i].(status := Archived, to := Some(p.now))];
          ok := ok && RangeOk(versions[i]);
        }
      }
      versions := versions + [Published(p)];
      if !ok {
        versions := saved;
      }
      return ok;
    }
  }

  /** A stored row never conflicts with itself, so looking after the insertion is looking before it. */
  lemma {:induction false} ConflictingAppended(vs: seq<Version>, v: Version, target: Version)
    requires v.id == target.id
    ensures Conflicting(vs + [v], target) == Conflicting(vs, target)
  {
    if vs != [] {
      assert (vs + [v])[1..] == vs[1..] + [v];
      ConflictingAppended(vs[1..], v, target);
    }
  }

  lemma {:induction false} ConflictingReplaced(vs: seq<Version>, i: nat, v: Version, target: Version)
    requires i < |vs| && vs[i].id == v.id == target.id
    ensures Conflicting(vs[i := v], target) == Conflicting(vs, target)
    decreases vs
  {
    if i > 0 {
      assert vs[i := v][1..] == vs[1..][i - 1 := v];
      ConflictingReplaced(vs[1..], i - 1, v, target);
    } else {
      assert vs[i := v][1..] == vs[1..];
    }
  }
}
