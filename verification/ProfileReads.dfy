/**
 Whether a window that commits a state then holds what every later read of storage
 will find (desktop/src/effect/Profiles.ts:62-75), for each mutator.
 */
module ProfileReads {
  import opened Options
  import opened ProfileModel
  import opened ProfileLaws
  import opened ProfileReorder
  import opened ProfileEdits
  import opened ProfileStore

  /** The two mutators that can put a disabled source into the selection or the open
      list: reusing a disabled draft, and toggling a disabled source. */
  predicate TouchesDisabled(latest: State, m: Mutator) {
    match m
    case AddSsh(_) =>
      var i := DraftIndex(latest.profiles);
      i < |latest.profiles| && !Runnable(latest.profiles[i])
    case Toggle(id) =>
      var i := IndexOf(latest.profiles, id);
      i < |latest.profiles| && !Runnable(latest.profiles[i])
    case _ => false
  }

  lemma RunnableAt(ps: seq<Profile>, i: nat)
    requires DistinctIds(ps) && i < |ps|
    ensures RunnableId(ps, ps[i].id) <==> Runnable(ps[i])
  {
    assert Names(ps[i], ps[i].id) && ps[i] in ps;
    if p :| p in ps && Names(p, ps[i].id) && Runnable(p) {
      SameIdSameProfile(ps, p, ps[i]);
    }
  }

  lemma SameMembersSameRunnable(a: seq<Profile>, b: seq<Profile>)
    requires forall p :: p in a <==> p in b
    ensures forall id :: RunnableId(a, id) <==> RunnableId(b, id)
  {
  }

  lemma ReplacedStaysRunnable(ps: seq<Profile>, i: nat, p: Profile)
    requires i < |ps| && ps[i].id == p.id && (Runnable(ps[i]) ==> Runnable(p))
    ensures forall id :: RunnableId(ps, id) ==> RunnableId(ps[i := p], id)
  {
    forall id | RunnableId(ps, id)
      ensures RunnableId(ps[i := p], id)
    {
      if id == p.id {
        var q :| q in ps && Names(q, id) && Runnable(q);
        var j :| 0 <= j < |ps| && ps[j] == q;
        assert ps[i := p][j] in ps[i := p] && Names(ps[i := p][j], id);
      } else {
        OthersStayRunnable(ps, i, p, id);
      }
    }
  }

  /** A listed state: distinct open ids, all runnable, and a runnable active one. */
  ghost predicate Listed(ps: seq<Profile>, active: Id, open: seq<Id>) {
    RunnableId(ps, active) && DistinctSeq(open) && forall id :: id in open ==> RunnableId(ps, id)
  }

  lemma SelectReadsBack(latest: State, id: Id)
    requires Normal(latest) && SelectEffect(latest, id).Write?
    ensures Normal(SelectEffect(latest, id).next)
  {
    RunnableAt(latest.profiles, IndexOf(latest.profiles, id));
  }

  lemma ReusedDraftReadsBackIff(latest: State, newId: Id)
    requires Normal(latest) && DraftIndex(latest.profiles) < |latest.profiles| && AddEffect(latest, newId).Write?
    ensures Normal(AddEffect(latest, newId).next) <==> !TouchesDisabled(latest, AddSsh(newId))
  {
    RunnableAt(latest.profiles, DraftIndex(latest.profiles));
  }

  lemma AppendedIsListed(latest: State, p: Profile)
    requires Normal(latest) && p.Ssh? && p.enabled && p.id !in IdSet(latest.profiles)
    ensures Listed(latest.profiles + [p], p.id, latest.open + [p.id])
  {
    var ps := latest.profiles + [p];
    assert p in ps && Names(p, p.id);
    forall id | RunnableId(latest.profiles, id)
      ensures RunnableId(ps, id) && id != p.id
    {
      var q :| q in latest.profiles && Names(q, id) && Runnable(q);
      assert q in ps;
    }
  }

  lemma AddReadsBackIff(latest: State, newId: Id)
    requires Normal(latest) && newId !in IdSet(latest.profiles) && AddEffect(latest, newId).Write?
    ensures Normal(AddEffect(latest, newId).next) <==> !TouchesDisabled(latest, AddSsh(newId))
  {
    if DraftIndex(latest.profiles) < |latest.profiles| {
      ReusedDraftReadsBackIff(latest, newId);
    } else {
      AppendKeepsSolid(latest.profiles, Ssh(newId, "", "", EMPTY_RUNNER, true, None));
      AppendedIsListed(latest, Ssh(newId, "", "", EMPTY_RUNNER, true, None));
    }
  }

  lemma ToggleReadsBackIff(latest: State, id: Id)
    requires Normal(latest) && ToggleOpen(latest, id) != latest
    ensures Normal(ToggleOpen(latest, id)) <==> !TouchesDisabled(latest, Toggle(id))
  {
    RunnableAt(latest.profiles, IndexOf(latest.profiles, id));
    ClosedKeepsDistinct(latest.open, id);
  }

  lemma ReorderReadsBack(latest: State, id: Id, target: Id)
    requires Normal(latest)
    ensures Normal(latest.(profiles := Reordered(latest.profiles, id, target)))
  {
    var ps, after := latest.profiles, Reordered(latest.profiles, id, target);
    ReorderKeepsSolid(ps, id, target);
    var from, to := IndexOf(ps, id), IndexOf(ps, target);
    if from < |ps| && to < |ps| {
      ReorderLands(ps, from, to);
      forall p
        ensures p in ps <==> p in after
      {
        assert p in multiset(ps) <==> p in multiset(after);
      }
      SameMembersSameRunnable(ps, after);
    }
  }

  lemma ReplacementReadsBack(latest: State, i: nat, p: Profile)
    requires Normal(latest) && i < |latest.profiles| && p.id == latest.profiles[i].id && (p.Ssh? <==> latest.profiles[i].Ssh?)
    requires p.Ssh? ==> !HostTaken(latest.profiles, p.id, p.host)
    requires Runnable(latest.profiles[i]) ==> Runnable(p)
    ensures Normal(latest.(profiles := latest.profiles[i := p]))
  {
    ReplaceKeepsSolid(latest.profiles, i, p);
    ReplacedStaysRunnable(latest.profiles, i, p);
  }

  lemma ApplyReadsBack(latest: State, edited: Id, runner: Runner, host: string, clientTty: string)
    requires Normal(latest) && !SwallowsADraft(latest.profiles, edited, host) && !Refused(latest, edited, host)
    ensures Normal(latest.(profiles := UpdateById(latest.profiles, edited, runner, host, clientTty)))
  {
    var i := IndexOf(latest.profiles, edited);
    if i < |latest.profiles| {
      UpdateIsAReplacement(latest.profiles, i, runner, host, clientTty);
      ReplacementReadsBack(latest, i, WithSettings(latest.profiles[i], runner, host, clientTty));
    } else {
      UpdateUnknownIsInert(latest.profiles, edited, runner, host, clientTty);
    }
  }

  lemma RecordReadsBack(latest: State, id: Id, host: string, key: RunnerKey)
    requires Normal(latest)
    ensures Normal(RecordProbed(latest, id, host, key))
  {
    var i := IndexOf(latest.profiles, id);
    if i < |latest.profiles| && latest.profiles[i].Ssh? {
      OwnHostIsFree(latest.profiles, i);
      ReplacementReadsBack(latest, i, latest.profiles[i].(probedHost := Some(host)));
    }
  }

  lemma EnableReadsBack(latest: State, id: Id, enabled: bool)
    requires Normal(latest) && EnabledEdit(latest, id, enabled).Some?
    ensures Normal(Normalize(AsPersisted(EnabledEdit(latest, id, enabled).value), EMPTY_RUNNER))
  {
    var i, edited := IndexOf(latest.profiles, id), EnabledEdit(latest, id, enabled).value;
    OwnHostIsFree(latest.profiles, i);
    ReplaceKeepsSolid(latest.profiles, i, edited.profiles[i]);
    NormalizeIsNormal(AsPersisted(edited), EMPTY_RUNNER);
  }

  lemma DeleteReadsBack(latest: State, ref: State)
    requires Normal(latest) && SameKinds(ref.profiles, latest.profiles) && DeleteTarget(ref).Some?
    ensures Normal(Normalize(AfterDelete(latest, DeleteTarget(ref).value), EMPTY_RUNNER))
  {
    TargetIsRemote(latest, ref);
    TargetIsRemoved(latest.profiles, DeleteTarget(ref).value);
    NormalizeIsNormal(AfterDelete(latest, DeleteTarget(ref).value), EMPTY_RUNNER);
  }

  ghost predicate Sound(latest: State, ref: State, m: Mutator) {
    && Normal(latest) && SameKinds(ref.profiles, latest.profiles)
    && (m.AddSsh? ==> m.newId !in IdSet(latest.profiles))
    && (m.Apply? ==> !SwallowsADraft(latest.profiles, ref.active, m.host))
  }

  lemma SelectionWriteIsNormalIff(latest: State, ref: State, m: Mutator, next: State)
    requires Sound(latest, ref, m) && EffectOf(latest, ref, m) == Write(next)
    requires m.Select? || m.AddSsh? || m.Toggle? || m.Reorder?
    ensures Normal(next) <==> !TouchesDisabled(latest, m)
  {
    match m
    case Select(id) => SelectReadsBack(latest, id);
    case AddSsh(newId) => AddReadsBackIff(latest, newId);
    case Toggle(id) => ToggleReadsBackIff(latest, id);
    case Reorder(id, target) => ReorderReadsBack(latest, id, target);
  }

  lemma SettingsWriteIsNormal(latest: State, ref: State, m: Mutator, next: State)
    requires Sound(latest, ref, m) && EffectOf(latest, ref, m) == Write(next)
    requires m.DeleteActive? || m.Apply? || m.Enable? || m.RecordProbe?
    ensures Normal(next)
  {
    match m
    case DeleteActive => DeleteReadsBack(latest, ref);
    case Apply(runner, host, clientTty) => ApplyReadsBack(latest, ref.active, runner, host, clientTty);
    case Enable(id, enabled) => EnableReadsBack(latest, id, enabled);
    case RecordProbe(id, host, key) => RecordReadsBack(latest, id, host, key);
  }

  lemma WrittenIsNormalIff(s: System, e: Event, next: State)
    requires Inv(s) && Admissible(s, e)
    requires EffectOf(Latest(s.storage), s.Ref(e.window), e.mutator) == Write(next)
    ensures Normal(next) <==> !TouchesDisabled(Latest(s.storage), e.mutator)
  {
    var latest, ref, m := Latest(s.storage), s.Ref(e.window), e.mutator;
    LatestIsNormal(s.storage);
    if m.Select? || m.AddSsh? || m.Toggle? || m.Reorder? {
      SelectionWriteIsNormalIff(latest, ref, m, next);
    } else {
      SettingsWriteIsNormal(latest, ref, m, next);
    }
  }

  /** After a commit the writing window holds exactly what storage will be read back
      as, unless the mutator reused a disabled draft or toggled a disabled source: then
      the next reload changes that window's selection or open folders. */
  lemma WriterAgreesIff(s: System, e: Event, next: State)
    requires Inv(s) && Admissible(s, e)
    requires EffectOf(Latest(s.storage), s.Ref(e.window), e.mutator) == Write(next)
    ensures Step(s, e).Ref(e.window) == next
    ensures Latest(Step(s, e).storage) == next <==> !TouchesDisabled(Latest(s.storage), e.mutator)
  {
    StepStores(s, e, next);
    MutatorWrites(s, e);
    UnchangedIffNormal(next, Stored(s.storage, next).mirror);
    WrittenIsNormalIff(s, e, next);
  }

  // ----- What each mutator leaves for the next read -----

  ghost predicate OnlyOneChanged(before: seq<Profile>, after: seq<Profile>, id: Id) {
    |after| == |before|
    && forall i :: 0 <= i < |before| ==> after[i].id == before[i].id && (before[i].id != id ==> after[i] == before[i])
  }

  /** The settings of the edited source, which is enabled by the edit and forgets the
      host probed on an old target. */
  ghost predicate HasSettings(before: seq<Profile>, after: seq<Profile>, id: Id,
                              runner: Runner, host: string, clientTty: string) {
    |after| == |before| && forall i :: 0 <= i < |before| && before[i].id == id ==>
                                       && after[i].runner == runner && (before[i].Local? ==> after[i].Local?)
                                       && (before[i].Ssh? ==>
                                             && after[i].Ssh? && after[i].host == host && after[i].clientTty == clientTty
                                             && after[i].enabled
                                             && after[i].probedHost == if before[i].host == host then before[i].probedHost else None)
  }

  /** The first runnable profile has this id. */
  predicate FirstRunnableIs(ps: seq<Profile>, id: Id) {
    exists i :: 0 <= i < |ps| && Names(ps[i], id) && Runnable(ps[i]) && forall k :: 0 <= k < i ==> !Runnable(ps[k])
  }

  predicate IsDraft(p: Profile) {
    p.Ssh? && p.host == ""
  }

  /** What the caller asked for, in terms of the state read before and after. */
  ghost predicate Achieved(before: State, ref: State, m: Mutator, after: State) {
    match m
    case Select(id) => after == before.(active := id)
    case AddSsh(newId) =>
      && (exists p :: p in after.profiles && IsDraft(p) && p.id == after.active)
      && (if exists p :: p in before.profiles && IsDraft(p) then after.profiles == before.profiles
          else after.profiles == before.profiles + [Ssh(newId, "", "", EMPTY_RUNNER, true, None)])
      && after.open == Opened(before.open, after.active)
    case DeleteActive =>
      && DeleteTarget(ref).Some?
      && var target := DeleteTarget(ref).value;
      && after.profiles == Without(before.profiles, target) && target !in IdSet(after.profiles)
      && after.open == Closed(before.open, target)
      && (if before.active == target then exists p :: p in after.profiles && p.Local? && p.id == after.active
          else after.active == before.active)
    case Apply(runner, host, clientTty) =>
      && OnlyOneChanged(before.profiles, after.profiles, ref.active)
      && HasSettings(before.profiles, after.profiles, ref.active, runner, host, clientTty)
      && after.active == before.active && after.open == before.open
    case Toggle(id) =>
      after == before.(open := if id in before.open then Closed(before.open, id) else Opened(before.open, id))
    case Reorder(id, target) => after == before.(profiles := Reordered(before.profiles, id, target))
    case Enable(id, enabled) =>
      && OnlyOneChanged(before.profiles, after.profiles, id)
      && (forall i :: 0 <= i < |before.profiles| && before.profiles[i].id == id ==>
                        before.profiles[i].Ssh? && after.profiles[i] == before.profiles[i].(enabled := enabled))
      && after.open == (if enabled then Opened(before.open, id) else Closed(before.open, id))
      && (if before.active == id && !enabled then FirstRunnableIs(after.profiles, after.active)
          else after.active == before.active)
    case RecordProbe(id, host, _) =>
      && OnlyOneChanged(before.profiles, after.profiles, id)
      && (forall i :: 0 <= i < |before.profiles| && before.profiles[i].id == id ==>
                        before.profiles[i].Ssh? && after.profiles[i] == before.profiles[i].(probedHost := Some(host)))
      && after.active == before.active && after.open == before.open
    case Reload => false
  }

  lemma NewIdIsClosed(s: State, newId: Id)
    requires Normal(s) && newId !in IdSet(s.profiles)
    ensures newId !in s.open
  {
    assert !RunnableId(s.profiles, newId);
  }

  lemma AddAchieves(latest: State, ref: State, newId: Id)
    requires Normal(latest) && newId !in IdSet(latest.profiles) && AddEffect(latest, newId).Write?
    ensures Achieved(latest, ref, AddSsh(newId), AddEffect(latest, newId).next)
  {
    var ps, i := latest.profiles, DraftIndex(latest.profiles);
    var next := AddEffect(latest, newId).next;
    if i < |ps| {
      assert ps[i] in next.profiles && IsDraft(ps[i]);
    } else {
      NewIdIsClosed(latest, newId);
      assert next.profiles[|ps|] in next.profiles && IsDraft(next.profiles[|ps|]);
    }
  }

  lemma {:induction false} OpenIdsAreClosed(ids: seq<Id>, remap: map<Id, Id>, ps: seq<Profile>, target: Id)
    requires DistinctSeq(ids)
    requires forall id :: id in ids ==> Mapped(remap, id) == id && (RunnableId(ps, id) <==> id != target)
    ensures OpenIds(ids, remap, ps) == Closed(ids, target)
    decreases |ids|
  {
    if ids != [] {
      var n := |ids| - 1;
      assert ids == ids[..n] + [ids[n]];
      OpenIdsAreClosed(ids[..n], remap, ps, target);
      ClosedSnoc(ids[..n], ids[n], target);
    }
  }

  lemma {:induction false} ClosedSnoc(ids: seq<Id>, id: Id, target: Id)
    ensures Closed(ids + [id], target) == Closed(ids, target) + if id == target then [] else [id]
    decreases |ids|
  {
    if ids != [] {
      ClosedSnoc(ids[1..], id, target);
      assert (ids + [id])[1..] == ids[1..] + [id];
    }
  }

  lemma OpenAfterDelete(latest: State, target: Id, rest: seq<Profile>)
    requires Normal(latest) && rest == Without(latest.profiles, target) && Solid(rest)
    ensures OpenIds(latest.open, Remap(rest, Hosts(rest)), rest) == Closed(latest.open, target)
  {
    RestIsRunnable(latest.profiles, target);
    UnlessDeletedReferenceStays(latest, rest, target);
    OpenIdsAreClosed(latest.open, Remap(rest, Hosts(rest)), rest, target);
  }

  lemma ActiveAfterDelete(latest: State, target: Id, rest: seq<Profile>)
    requires Normal(latest) && rest == Without(latest.profiles, target) && Solid(rest) && latest.active != target
    ensures Normalize(AfterDelete(latest, target), EMPTY_RUNNER).active == latest.active
  {
    RestIsRunnable(latest.profiles, target);
    StaysActive(rest, latest.active);
    SolidRefersToItself(rest);
    SolidStays(rest, EMPTY_RUNNER);
  }

  lemma RefersToALocal(rest: seq<Profile>, active: Id)
    requires HasLocal(rest) && Solid(rest) && forall p :: p in rest ==> p.id != active
    ensures IndexOf(rest, active) == |rest| && LocalIndex(rest) < |rest|
    ensures rest[LocalIndex(rest)].Local? && RunnableId(rest, rest[LocalIndex(rest)].id)
    ensures Mapped(Remap(rest, Hosts(rest)), rest[LocalIndex(rest)].id) == rest[LocalIndex(rest)].id
  {
    var p :| p in rest && p.Local?;
    var i := LocalIndex(rest);
    assert Names(rest[i], rest[i].id) && rest[i] in rest;
    SolidRefersToItself(rest);
  }

  lemma RequestedIsActive(rest: seq<Profile>, active: Id, open: seq<Id>)
    requires Solid(rest) && RunnableId(rest, active) && Mapped(Remap(rest, Hosts(rest)), active) == active
    ensures Normalize(Persisted(Some(active), rest, Some(open)), EMPTY_RUNNER).active == active
  {
    SolidStays(rest, EMPTY_RUNNER);
  }

  lemma LocalAfterDelete(latest: State, rest: seq<Profile>)
    requires Normal(latest) && rest == Without(latest.profiles, latest.active) && Solid(rest)
    ensures var active := Normalize(AfterDelete(latest, latest.active), EMPTY_RUNNER).active;
            exists p :: p in rest && p.Local? && p.id == active
  {
    TargetUnknown(latest.profiles, latest.active);
    RefersToALocal(rest, latest.active);
    var local := rest[LocalIndex(rest)];
    assert AfterDelete(latest, latest.active) == Persisted(Some(local.id), rest, Some(latest.open));
    RequestedIsActive(rest, local.id, latest.open);
    assert local in rest && local.Local?;
  }

  lemma DeletedProfiles(latest: State, target: Id)
    requires Solid(Without(latest.profiles, target))
    ensures var (rest, next) := (Without(latest.profiles, target), Normalize(AfterDelete(latest, target), EMPTY_RUNNER));
            next.profiles == rest && next.open == OpenIds(latest.open, Remap(rest, Hosts(rest)), rest)
  {
    SolidStays(Without(latest.profiles, target), EMPTY_RUNNER);
  }

  lemma DeleteAchieves(latest: State, ref: State)
    requires Normal(latest) && SameKinds(ref.profiles, latest.profiles) && DeleteTarget(ref).Some?
    ensures Achieved(latest, ref, DeleteActive, Normalize(AfterDelete(latest, DeleteTarget(ref).value), EMPTY_RUNNER))
  {
    var target := DeleteTarget(ref).value;
    var rest := Without(latest.profiles, target);
    TargetIsRemote(latest, ref);
    TargetIsRemoved(latest.profiles, target);
    DeletedProfiles(latest, target);
    OpenAfterDelete(latest, target, rest);
    if latest.active == target {
      LocalAfterDelete(latest, rest);
    } else {
      ActiveAfterDelete(latest, target, rest);
    }
  }

  lemma RestIsRunnable(ps: seq<Profile>, target: Id)
    requires DistinctIds(ps)
    ensures forall id :: RunnableId(Without(ps, target), id) <==> RunnableId(ps, id) && id != target
  {
    var i := IndexOf(ps, target);
    if i < |ps| {
      OthersHaveOtherIds(ps, i);
      WithoutIsACut(ps, i);
      CutMembers(ps, i);
      CutKeepsDistinct(ps, i);
      forall p | p in ps && p.id == target
        ensures p == ps[i]
      {
        SameIdSameProfile(ps, p, ps[i]);
      }
      assert forall p :: p in Without(ps, target) <==> p in ps && p.id != target;
    } else {
      WithoutAbsent(ps, target);
    }
  }

  lemma UnlessDeletedReferenceStays(latest: State, rest: seq<Profile>, target: Id)
    requires Normal(latest) && Solid(rest) && rest == Without(latest.profiles, target)
    ensures forall from :: from in latest.open && from != target ==> Mapped(Remap(rest, Hosts(rest)), from) == from
    ensures Mapped(Remap(rest, Hosts(rest)), target) == target
  {
    SolidRefersToItself(rest);
    RestIsRunnable(latest.profiles, target);
    TargetUnknown(latest.profiles, target);
    UnknownReferencesStay(rest, target);
  }

  lemma TargetUnknown(ps: seq<Profile>, target: Id)
    requires DistinctIds(ps)
    ensures forall p :: p in Without(ps, target) ==> p.id != target
  {
    var i := IndexOf(ps, target);
    if i < |ps| {
      OthersHaveOtherIds(ps, i);
      WithoutIsACut(ps, i);
      CutKeepsDistinct(ps, i);
    } else {
      WithoutAbsent(ps, target);
    }
  }

  lemma StaysActive(ps: seq<Profile>, active: Id)
    requires RunnableId(ps, active)
    ensures IndexOf(ps, active) < |ps|
  {
    var p :| p in ps && Names(p, active) && Runnable(p);
    var k :| 0 <= k < |ps| && ps[k] == p;
  }

  lemma ApplyAchieves(latest: State, ref: State, runner: Runner, host: string, clientTty: string)
    ensures Achieved(latest, ref, Apply(runner, host, clientTty),
                     latest.(profiles := UpdateById(latest.profiles, ref.active, runner, host, clientTty)))
  {
  }

  lemma RecordAchieves(latest: State, ref: State, id: Id, host: string, key: RunnerKey)
    requires DistinctIds(latest.profiles) && RecordProbed(latest, id, host, key) != latest
    ensures Achieved(latest, ref, RecordProbe(id, host, key), RecordProbed(latest, id, host, key))
  {
    OthersHaveOtherIds(latest.profiles, IndexOf(latest.profiles, id));
  }

  lemma EnableAchieves(latest: State, ref: State, id: Id, enabled: bool)
    requires Normal(latest) && EnabledEdit(latest, id, enabled).Some?
    ensures Achieved(latest, ref, Enable(id, enabled), SetEnabled(latest, id, enabled))
  {
    var i := IndexOf(latest.profiles, id);
    EnableChangesOneSource(latest, id, enabled);
    OthersHaveOtherIds(latest.profiles, i);
    if latest.active == id && !enabled {
      DisabledFallsBack(latest, id);
    }
    OneGateChanged(latest.profiles, i, enabled);
  }

  /** Nothing stays runnable under a disabled source's id. */
  lemma DisabledIsGone(latest: State, i: nat)
    requires Normal(latest) && i < |latest.profiles| && latest.profiles[i].Ssh?
    ensures !RunnableId(latest.profiles[i := latest.profiles[i].(enabled := false)], latest.profiles[i].id)
  {
    OthersHaveOtherIds(latest.profiles, i);
    var after := latest.profiles[i := latest.profiles[i].(enabled := false)];
    forall p | p in after && Names(p, latest.profiles[i].id)
      ensures !Runnable(p)
    {
      var k :| 0 <= k < |after| && after[k] == p;
    }
  }

  lemma FallsBackToTheFirst(ps: seq<Profile>, id: Id, open: seq<Id>)
    requires Solid(ps) && !RunnableId(ps, id)
    requires Mapped(Remap(ps, Hosts(ps)), id) == id
    ensures var s := Normalize(Persisted(Some(id), ps, Some(open)), EMPTY_RUNNER);
            s.profiles == ps && FirstRunnableIs(ps, s.active)
  {
    SolidStays(ps, EMPTY_RUNNER);
    var local :| local in ps && local.Local?;
    assert FirstRunnable(ps) < |ps|;
    assert Names(ps[FirstRunnable(ps)], ps[FirstRunnable(ps)].id);
  }

  /** In a list normalising leaves alone every id refers to itself. */
  lemma SolidReferences(ps: seq<Profile>, id: Id)
    requires Solid(ps)
    ensures Mapped(Remap(ps, Hosts(ps)), id) == id
  {
    if p :| p in ps && p.id == id {
      OnlyOneKeepsItself(ps, p);
      ReferencesFollowConnections(ps, p);
    } else {
      UnknownReferencesStay(ps, id);
    }
  }

  lemma DisabledFallsBack(latest: State, id: Id)
    requires Normal(latest) && EnabledEdit(latest, id, false).Some? && latest.active == id
    ensures FirstRunnableIs(SetEnabled(latest, id, false).profiles, SetEnabled(latest, id, false).active)
  {
    var i, edited := IndexOf(latest.profiles, id), EnabledEdit(latest, id, false).value;
    DisabledIsGone(latest, i);
    OwnHostIsFree(latest.profiles, i);
    ReplaceKeepsSolid(latest.profiles, i, edited.profiles[i]);
    SolidReferences(edited.profiles, id);
    FallsBackToTheFirst(edited.profiles, id, edited.open);
  }

  lemma OneGateChanged(ps: seq<Profile>, i: nat, enabled: bool)
    requires i < |ps| && ps[i].Ssh? && forall k :: 0 <= k < |ps| && k != i ==> ps[k].id != ps[i].id
    ensures var after := ps[i := ps[i].(enabled := enabled)];
            OnlyOneChanged(ps, after, ps[i].id)
            && forall k :: 0 <= k < |ps| && ps[k].id == ps[i].id ==> ps[k].Ssh? && after[k] == ps[k].(enabled := enabled)
  {
  }

  lemma WriteAchieves(s: System, e: Event, next: State)
    requires Inv(s) && Admissible(s, e)
    requires EffectOf(Latest(s.storage), s.Ref(e.window), e.mutator) == Write(next)
    ensures Achieved(Latest(s.storage), s.Ref(e.window), e.mutator, next)
  {
    var latest, ref := Latest(s.storage), s.Ref(e.window);
    LatestIsNormal(s.storage);
    match e.mutator
    case Select(id) =>
    case AddSsh(newId) => AddAchieves(latest, ref, newId);
    case DeleteActive => DeleteAchieves(latest, ref);
    case Apply(runner, host, clientTty) => ApplyAchieves(latest, ref, runner, host, clientTty);
    case Toggle(id) =>
    case Reorder(id, target) =>
    case Enable(id, enabled) => EnableAchieves(latest, ref, id, enabled);
    case RecordProbe(id, host, key) => RecordAchieves(latest, ref, id, host, key);
    case Reload =>
  }

  /** After a commit that touches nothing disabled, both windows read back what the
      mutator was asked for, merged onto what storage held: the writer's staleness
      decides only which source an edit or a deletion is aimed at. */
  lemma CommitAchieves(s: System, e: Event)
    requires Inv(s) && Admissible(s, e) && !TouchesDisabled(Latest(s.storage), e.mutator)
    requires EffectOf(Latest(s.storage), s.Ref(e.window), e.mutator).Write?
    ensures Achieved(Latest(s.storage), s.Ref(e.window), e.mutator, Latest(Step(s, e).storage))
  {
    var next := EffectOf(Latest(s.storage), s.Ref(e.window), e.mutator).next;
    WriterAgreesIff(s, e, next);
    WriteAchieves(s, e, next);
  }
}
