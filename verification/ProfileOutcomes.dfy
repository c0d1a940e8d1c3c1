/**
 When each mutator of the profile service acts, and what the next read of storage and
 the window's own copy then hold (desktop/src/effect/Profiles.ts:62-251), told from the
 stored state and the window's copy alone.
 */
module ProfileOutcomes {
  import opened Options
  import opened ProfileModel
  import opened ProfileLaws
  import opened ProfileReorder
  import opened ProfileEdits
  import opened ProfileStore
  import opened ProfileReads
  import ProfileService

  ghost predicate HasId(ps: seq<Profile>, id: Id) {
    exists p :: p in ps && Names(p, id)
  }

  /** The profile a window takes to be active: the first runnable one of the active id,
      else the first runnable one. */
  ghost predicate IsActiveIn(s: State, p: Profile) {
    exists i :: 0 <= i < |s.profiles| && s.profiles[i] == p && Runnable(p)
                && if RunnableId(s.profiles, s.active) then
                     Names(p, s.active) && forall k :: 0 <= k < i ==> !(Names(s.profiles[k], s.active) && Runnable(s.profiles[k]))
                   else forall k :: 0 <= k < i ==> !Runnable(s.profiles[k])
  }

  /** Another SSH source has this host. */
  ghost predicate TakenByAnother(ps: seq<Profile>, id: Id, host: string) {
    exists q :: q in ps && q.Ssh? && q.id != id && q.host == host
  }

  ghost predicate IsProbeOf(p: Profile, id: Id, host: string, key: RunnerKey) {
    p.Ssh? && p.id == id && key == SshRunner(p.host, p.clientTty, p.runner) && p.probedHost != Some(host)
  }

  /** When a mutator stores something, given what is stored and the window's copy. */
  ghost predicate Acts(before: State, ref: State, m: Mutator) {
    match m
    case Select(id) => id != before.active && RunnableId(before.profiles, id)
    case AddSsh(_) => !exists p :: p in before.profiles && IsDraft(p) && p.id == before.active && p.id in before.open
    case DeleteActive => exists p :: IsActiveIn(ref, p) && p.Ssh?
    case Apply(_, host, _) =>
      !(host != "" && TakenByAnother(before.profiles, ref.active, host)
        && exists p :: p in before.profiles && p.Ssh? && Names(p, ref.active))
    case Toggle(id) => HasId(before.profiles, id)
    case Reorder(id, target) => id != target && HasId(before.profiles, id) && HasId(before.profiles, target)
    case Enable(id, enabled) => exists p :: p in before.profiles && p.Ssh? && Names(p, id) && p.enabled != enabled
    case RecordProbe(id, host, key) => host != "" && exists p :: p in before.profiles && IsProbeOf(p, id, host, key)
    case Reload => false
  }

  /** When a mutator that stores nothing brings its window up to date. */
  predicate Refreshes(before: State, m: Mutator) {
    match m
    case Select(id) => id == before.active
    case AddSsh(_) => true
    case Apply(_, _, _) => true
    case Reload => true
    case _ => false
  }

  lemma ActiveProfileIs(s: State)
    requires HasLocal(s.profiles)
    ensures IsActiveIn(s, ActiveProfile(s)) && forall p :: IsActiveIn(s, p) ==> p == ActiveProfile(s)
  {
    var local :| local in s.profiles && local.Local?;
    var i, first := RunnableIndex(s.profiles, s.active), FirstRunnable(s.profiles);
    assert first < |s.profiles|;
    if i < |s.profiles| {
      assert RunnableId(s.profiles, s.active);
    }
  }

  lemma FoundIff(ps: seq<Profile>, id: Id)
    ensures IndexOf(ps, id) < |ps| <==> HasId(ps, id)
  {
    if p :| p in ps && Names(p, id) {
      var k :| 0 <= k < |ps| && ps[k] == p;
    }
    if IndexOf(ps, id) < |ps| {
      assert Names(ps[IndexOf(ps, id)], id);
    }
  }

  /** With distinct ids the first profile found is the only one. */
  lemma FoundIsTheOnly(ps: seq<Profile>, p: Profile)
    requires DistinctIds(ps) && p in ps
    ensures IndexOf(ps, p.id) < |ps| && ps[IndexOf(ps, p.id)] == p
  {
    var k :| 0 <= k < |ps| && ps[k] == p;
  }

  lemma SelectActsIff(latest: State, id: Id)
    requires Normal(latest)
    ensures SelectEffect(latest, id).Write? <==> id != latest.active && RunnableId(latest.profiles, id)
    ensures SelectEffect(latest, id).Adopt? <==> id == latest.active
  {
    var i := IndexOf(latest.profiles, id);
    if i < |latest.profiles| {
      RunnableAt(latest.profiles, i);
    } else if p :| p in latest.profiles && Names(p, id) && Runnable(p) {
      FoundIsTheOnly(latest.profiles, p);
    }
  }

  lemma OneDraftOnly(latest: State, p: Profile)
    requires Normal(latest) && p in latest.profiles && IsDraft(p)
    ensures DraftIndex(latest.profiles) < |latest.profiles| && latest.profiles[DraftIndex(latest.profiles)] == p
  {
    var k :| 0 <= k < |latest.profiles| && latest.profiles[k] == p;
  }

  lemma AddActsIff(latest: State, newId: Id)
    requires Normal(latest)
    ensures AddEffect(latest, newId).Write? <==>
            !exists p :: p in latest.profiles && IsDraft(p) && p.id == latest.active && p.id in latest.open
  {
    var i := DraftIndex(latest.profiles);
    if p :| p in latest.profiles && IsDraft(p) && p.id == latest.active && p.id in latest.open {
      OneDraftOnly(latest, p);
    } else if i < |latest.profiles| {
      var p := latest.profiles[i];
      assert p in latest.profiles && IsDraft(p);
      assert p.id != latest.active || p.id !in latest.open;
      if p.id !in latest.open {
        assert |Opened(latest.open, p.id)| == |latest.open| + 1;
      }
    }
  }

  lemma DeleteActsIff(latest: State, ref: State)
    requires HasLocal(ref.profiles)
    ensures DeleteEffect(latest, ref).Write? <==> exists p :: IsActiveIn(ref, p) && p.Ssh?
    ensures !DeleteEffect(latest, ref).Adopt?
  {
    ActiveProfileIs(ref);
  }

  lemma ApplyActsIff(latest: State, edited: Id, runner: Runner, host: string, clientTty: string)
    requires Normal(latest)
    ensures ApplyEffect(latest, edited, runner, host, clientTty).Write? <==>
            !(host != "" && TakenByAnother(latest.profiles, edited, host)
              && exists p :: p in latest.profiles && p.Ssh? && Names(p, edited))
  {
    FoundIff(latest.profiles, edited);
    var i := IndexOf(latest.profiles, edited);
    if i < |latest.profiles| {
      assert latest.profiles[i] in latest.profiles && Names(latest.profiles[i], edited);
    }
    if p :| p in latest.profiles && p.Ssh? && Names(p, edited) {
      FoundIsTheOnly(latest.profiles, p);
    }
    assert TakenByAnother(latest.profiles, edited, host) <==> HostTaken(latest.profiles, edited, host);
  }

  lemma ToggleActsIff(latest: State, id: Id)
    ensures ToggleOpen(latest, id) != latest <==> HasId(latest.profiles, id)
  {
    FoundIff(latest.profiles, id);
    if id !in latest.open {
      assert |latest.open + [id]| == |latest.open| + 1;
    } else {
      assert id !in Closed(latest.open, id);
    }
  }

  lemma ReorderActsIff(latest: State, id: Id, target: Id)
    requires Normal(latest)
    ensures Reordered(latest.profiles, id, target) != latest.profiles <==>
            id != target && HasId(latest.profiles, id) && HasId(latest.profiles, target)
  {
    var ps := latest.profiles;
    FoundIff(ps, id);
    FoundIff(ps, target);
    var from, to := IndexOf(ps, id), IndexOf(ps, target);
    if from < |ps| && to < |ps| && id != target {
      ReorderLands(ps, from, to);
      OthersHaveOtherIds(ps, to);
      assert Reordered(ps, id, target)[to] != ps[to];
    }
  }

  lemma EnableActsIff(latest: State, id: Id, enabled: bool)
    requires Normal(latest)
    ensures EnabledEdit(latest, id, enabled).Some? <==>
            exists p :: p in latest.profiles && p.Ssh? && Names(p, id) && p.enabled != enabled
  {
    var i := IndexOf(latest.profiles, id);
    if i < |latest.profiles| {
      assert latest.profiles[i] in latest.profiles && Names(latest.profiles[i], id);
    }
    if p :| p in latest.profiles && p.Ssh? && Names(p, id) && p.enabled != enabled {
      FoundIsTheOnly(latest.profiles, p);
    }
  }

  lemma RecordActsIff(latest: State, id: Id, host: string, key: RunnerKey)
    requires Normal(latest)
    ensures RecordProbed(latest, id, host, key) != latest <==>
            host != "" && exists p :: p in latest.profiles && IsProbeOf(p, id, host, key)
  {
    var i := IndexOf(latest.profiles, id);
    if i < |latest.profiles| {
      assert latest.profiles[i] in latest.profiles && Names(latest.profiles[i], id);
      if RecordProbed(latest, id, host, key) != latest {
        assert IsProbeOf(latest.profiles[i], id, host, key);
      }
    }
    if p :| host != "" && p in latest.profiles && IsProbeOf(p, id, host, key) {
      FoundIsTheOnly(latest.profiles, p);
      assert RecordProbed(latest, id, host, key).profiles[i] != latest.profiles[i];
    }
  }

  /** A mutator stores something exactly under its condition, and otherwise refreshes
      its window exactly under that one. */
  lemma ActsIff(latest: State, ref: State, m: Mutator)
    requires Normal(latest) && HasLocal(ref.profiles)
    ensures EffectOf(latest, ref, m).Write? <==> Acts(latest, ref, m)
    ensures EffectOf(latest, ref, m).Adopt? <==> !Acts(latest, ref, m) && Refreshes(latest, m)
  {
    match m
    case Select(id) => SelectActsIff(latest, id);
    case AddSsh(newId) => AddActsIff(latest, newId);
    case DeleteActive => DeleteActsIff(latest, ref);
    case Apply(runner, host, clientTty) => ApplyActsIff(latest, ref.active, runner, host, clientTty);
    case Toggle(id) => ToggleActsIff(latest, id);
    case Reorder(id, target) => ReorderActsIff(latest, id, target);
    case Enable(id, enabled) => EnableActsIff(latest, id, enabled);
    case RecordProbe(id, host, key) => RecordActsIff(latest, id, host, key);
    case Reload =>
  }

  // ----- What the next read finds -----

  /** The mutators that put a disabled source in front: reusing a disabled draft, and
      opening the folder of a disabled source. */
  ghost predicate PicksDisabled(before: State, m: Mutator) {
    match m
    case AddSsh(_) => exists p :: p in before.profiles && IsDraft(p) && !p.enabled
    case Toggle(id) => exists p :: p in before.profiles && Names(p, id) && !Runnable(p)
    case _ => false
  }

  lemma PicksDisabledIff(before: State, m: Mutator)
    requires Normal(before)
    ensures PicksDisabled(before, m) <==> TouchesDisabled(before, m)
  {
    match m
    case AddSsh(_) =>
      var i := DraftIndex(before.profiles);
      if i < |before.profiles| {
        assert before.profiles[i] in before.profiles && IsDraft(before.profiles[i]);
      }
      if p :| p in before.profiles && IsDraft(p) && !p.enabled {
        OneDraftOnly(before, p);
      }
    case Toggle(id) =>
      var i := IndexOf(before.profiles, id);
      if i < |before.profiles| {
        assert before.profiles[i] in before.profiles && Names(before.profiles[i], id);
      }
      if p :| p in before.profiles && Names(p, id) && !Runnable(p) {
        FoundIsTheOnly(before.profiles, p);
      }
    case _ =>
  }

  lemma {:induction false} OpenIdsDrop(ids: seq<Id>, id: Id, remap: map<Id, Id>, ps: seq<Profile>)
    requires DistinctSeq(ids) && !RunnableId(ps, id) && Mapped(remap, id) == id
    requires forall x :: x in ids ==> RunnableId(ps, x) && Mapped(remap, x) == x
    ensures OpenIds(ids + [id], remap, ps) == ids
  {
    OpenIdsAll(ids, remap, ps);
    assert (ids + [id])[..|ids|] == ids;
  }

  lemma DisabledIsClosed(before: State, p: Profile)
    requires Normal(before) && p in before.profiles && !Runnable(p)
    ensures !RunnableId(before.profiles, p.id) && p.id !in before.open && p.id != before.active
  {
    FoundIsTheOnly(before.profiles, p);
    RunnableAt(before.profiles, IndexOf(before.profiles, p.id));
  }

  /** An id put into the open list that is not runnable is dropped by the next read. */
  lemma NextReadDrops(before: State, id: Id, selected: bool, fallback: Runner)
    requires Normal(before) && !RunnableId(before.profiles, id)
    ensures var written := before.(open := before.open + [id], active := if selected then id else before.active);
            var after := Normalize(AsPersisted(written), fallback);
            && after.profiles == before.profiles && after.open == before.open
            && if selected then FirstRunnableIs(after.profiles, after.active) else after.active == before.active
  {
    var ps := before.profiles;
    SolidStays(ps, fallback);
    SolidReferences(ps, id);
    SolidReferences(ps, before.active);
    forall x | x in before.open
      ensures Mapped(Remap(ps, Hosts(ps)), x) == x
    {
      SolidReferences(ps, x);
    }
    OpenIdsDrop(before.open, id, Remap(ps, Hosts(ps)), ps);
    var local :| local in ps && local.Local?;
    assert FirstRunnable(ps) < |ps|;
    assert Names(ps[FirstRunnable(ps)], ps[FirstRunnable(ps)].id);
  }

  /** What was put in front is dropped; a disabled draft that was selected leaves the
      selection with the first runnable source. */
  ghost predicate Dropped(before: State, m: Mutator, after: State) {
    && after.profiles == before.profiles && after.open == before.open
    && if m.AddSsh? then FirstRunnableIs(after.profiles, after.active) else after.active == before.active
  }

  lemma DisabledIsDropped(before: State, ref: State, m: Mutator, next: State, fallback: Runner)
    requires Normal(before) && PicksDisabled(before, m) && EffectOf(before, ref, m) == Write(next)
    ensures Dropped(before, m, Normalize(AsPersisted(next), fallback))
    ensures next == before.(open := next.open, active := next.active)
  {
    match m
    case AddSsh(_) =>
      var p :| p in before.profiles && IsDraft(p) && !p.enabled;
      OneDraftOnly(before, p);
      DisabledIsClosed(before, p);
      NextReadDrops(before, p.id, true, fallback);
    case Toggle(id) =>
      var p :| p in before.profiles && Names(p, id) && !Runnable(p);
      FoundIsTheOnly(before.profiles, p);
      DisabledIsClosed(before, p);
      NextReadDrops(before, id, false, fallback);
  }

  /** The runner of the local source is mirrored for a later fresh start. */
  ghost predicate Mirrors(st: Storage, s: State) {
    exists i :: 0 <= i < |s.profiles| && s.profiles[i].Local? && st.mirror == s.profiles[i].runner
                && forall k :: 0 <= k < i ==> s.profiles[k].Ssh?
  }

  lemma StoredMirrors(st: Storage, next: State)
    requires HasLocal(next.profiles)
    ensures Mirrors(Stored(st, next), next)
  {
    var local :| local in next.profiles && local.Local?;
    var i := LocalIndex(next.profiles);
    assert i < |next.profiles| && next.profiles[i].Local?;
  }

  /** A fresh installation reads as one local source, selected and open. */
  lemma FreshReadIs(st: Storage)
    requires st.raw.None?
    ensures var s := Latest(st);
            |s.profiles| == 1 && s.profiles[0] == Local("local", st.mirror) && s.active == "local" && s.open == ["local"]
  {
  }

  /** Whatever the mutator and the window: if its condition fails, nothing is stored, and
      the window refreshes or stays as it is. If it holds, the next read finds what was
      asked for, and so does the window; what put a disabled source in front is dropped
      by the next read. The other window is not touched. */
  ghost predicate Outcome(s: System, e: Event, s': System) {
    var before, after, ref := Latest(s.storage), Latest(s'.storage), s.Ref(e.window);
    && (!Acts(before, ref, e.mutator) ==>
          s'.storage == s.storage && s'.Ref(e.window) == if Refreshes(before, e.mutator) then before else ref)
    && (Acts(before, ref, e.mutator) && !PicksDisabled(before, e.mutator) ==>
          Achieved(before, ref, e.mutator, after) && s'.Ref(e.window) == after && Mirrors(s'.storage, after))
    && (Acts(before, ref, e.mutator) && PicksDisabled(before, e.mutator) ==> Dropped(before, e.mutator, after))
    && (if e.window.Dock? then s'.settings == s.settings else s'.dock == s.dock)
  }

  lemma DeclinedOutcome(s: System, e: Event)
    requires Inv(s) && !Acts(Latest(s.storage), s.Ref(e.window), e.mutator)
    ensures Outcome(s, e, Step(s, e))
  {
    LatestIsNormal(s.storage);
    ActsIff(Latest(s.storage), s.Ref(e.window), e.mutator);
  }

  lemma AchievedOutcome(s: System, e: Event)
    requires Inv(s) && Admissible(s, e) && Acts(Latest(s.storage), s.Ref(e.window), e.mutator)
    requires !PicksDisabled(Latest(s.storage), e.mutator)
    ensures Outcome(s, e, Step(s, e))
  {
    var latest, ref := Latest(s.storage), s.Ref(e.window);
    LatestIsNormal(s.storage);
    ActsIff(latest, ref, e.mutator);
    PicksDisabledIff(latest, e.mutator);
    var next := EffectOf(latest, ref, e.mutator).next;
    WriterAgreesIff(s, e, next);
    WrittenIsNormalIff(s, e, next);
    CommitAchieves(s, e);
    StepStores(s, e, next);
    StoredMirrors(s.storage, next);
  }

  lemma DroppedOutcome(s: System, e: Event)
    requires Inv(s) && Acts(Latest(s.storage), s.Ref(e.window), e.mutator) && PicksDisabled(Latest(s.storage), e.mutator)
    ensures Outcome(s, e, Step(s, e))
  {
    var latest, ref := Latest(s.storage), s.Ref(e.window);
    LatestIsNormal(s.storage);
    ActsIff(latest, ref, e.mutator);
    var next := EffectOf(latest, ref, e.mutator).next;
    StepStores(s, e, next);
    DisabledIsDropped(latest, ref, e.mutator, next, Stored(s.storage, next).mirror);
  }

  lemma MutatorOutcome(s: System, e: Event)
    requires Inv(s) && Admissible(s, e)
    ensures Outcome(s, e, Step(s, e))
  {
    if !Acts(Latest(s.storage), s.Ref(e.window), e.mutator) {
      DeclinedOutcome(s, e);
    } else if PicksDisabled(Latest(s.storage), e.mutator) {
      DroppedOutcome(s, e);
    } else {
      AchievedOutcome(s, e);
    }
  }

  /** The other window is notified exactly when something is stored. */
  lemma NotifiesIffActs(before: Storage, ref: State, emits: nat, m: Mutator, after: Storage, ref': State, emits': nat)
    requires Readable(before) && HasLocal(ref.profiles)
    requires ProfileService.Performed(before, ref, emits, m, after, ref', emits')
    ensures emits' == emits + if Acts(Latest(before), ref, m) then 1 else 0
  {
    LatestIsNormal(before);
    ActsIff(Latest(before), ref, m);
  }

  // ----- When the next read changes -----

  predicate AlreadySet(p: Profile, runner: Runner, host: string, clientTty: string) {
    p.runner == runner && (p.Ssh? ==> p.host == host && p.clientTty == clientTty && p.enabled)
  }

  /** When the next read differs from the last one. */
  ghost predicate Changes(before: State, ref: State, m: Mutator) {
    Acts(before, ref, m)
    && match m
       case AddSsh(_) => PicksDisabled(before, m) ==> !FirstRunnableIs(before.profiles, before.active)
       case DeleteActive => exists p :: IsActiveIn(ref, p) && p.Ssh? && HasId(before.profiles, p.id)
       case Apply(runner, host, clientTty) =>
         exists p :: p in before.profiles && Names(p, ref.active) && !AlreadySet(p, runner, host, clientTty)
       case Toggle(_) => !PicksDisabled(before, m)
       case _ => true
  }

  /** The next read changes exactly under these conditions. In particular a selection is
      changed exactly to a runnable stored source that is not yet selected. */
  lemma NextReadChangesIff(s: System, e: Event)
    requires Inv(s) && Admissible(s, e)
    ensures Latest(Step(s, e).storage) != Latest(s.storage) <==> Changes(Latest(s.storage), s.Ref(e.window), e.mutator)
  {
    var before, after, ref := Latest(s.storage), Latest(Step(s, e).storage), s.Ref(e.window);
    MutatorOutcome(s, e);
    LatestIsNormal(s.storage);
    if Acts(before, ref, e.mutator) {
      if PicksDisabled(before, e.mutator) {
        DroppedChangesIff(before, ref, e.mutator, after);
      } else {
        AchievedChangesIff(before, ref, e.mutator, after);
      }
    }
  }

  lemma OneFirstRunnable(ps: seq<Profile>, a: Id, b: Id)
    requires FirstRunnableIs(ps, a) && FirstRunnableIs(ps, b)
    ensures a == b
  {
  }

  lemma DroppedChangesIff(before: State, ref: State, m: Mutator, after: State)
    requires Acts(before, ref, m) && PicksDisabled(before, m) && Dropped(before, m, after)
    ensures after != before <==> Changes(before, ref, m)
  {
    if m.AddSsh? && FirstRunnableIs(before.profiles, before.active) {
      OneFirstRunnable(before.profiles, before.active, after.active);
    }
  }

  lemma AchievedChangesIff(before: State, ref: State, m: Mutator, after: State)
    requires Normal(before) && HasLocal(ref.profiles) && Acts(before, ref, m)
    requires !PicksDisabled(before, m) && Achieved(before, ref, m, after)
    ensures after != before <==> Changes(before, ref, m)
  {
    match m
    case Select(id) =>
    case AddSsh(newId) => AddChanges(before, newId, ref, after);
    case DeleteActive => DeleteChangesIff(before, ref, after);
    case Apply(runner, host, clientTty) => ApplyChangesIff(before, ref, runner, host, clientTty, after);
    case Toggle(id) => ToggleActsIff(before, id);
    case Reorder(id, target) => ReorderActsIff(before, id, target);
    case Enable(id, enabled) => EnableChanges(before, ref, id, enabled, after);
    case RecordProbe(id, host, key) => RecordChanges(before, ref, id, host, key, after);
    case Reload =>
  }

  lemma AddChanges(before: State, newId: Id, ref: State, after: State)
    requires Normal(before) && Acts(before, ref, AddSsh(newId)) && Achieved(before, ref, AddSsh(newId), after)
    ensures after != before
  {
    var p :| p in after.profiles && IsDraft(p) && p.id == after.active;
    assert p.id in after.open;
  }

  lemma DeleteChangesIff(before: State, ref: State, after: State)
    requires Normal(before) && HasLocal(ref.profiles) && Achieved(before, ref, DeleteActive, after)
    ensures after != before <==> exists p :: IsActiveIn(ref, p) && p.Ssh? && HasId(before.profiles, p.id)
  {
    ActiveProfileIs(ref);
    var target := DeleteTarget(ref).value;
    FoundIff(before.profiles, target);
    if HasId(before.profiles, target) {
      assert target in IdSet(before.profiles);
    } else {
      AbsentStays(before, target, after);
    }
  }

  lemma AbsentStays(before: State, target: Id, after: State)
    requires Normal(before) && !HasId(before.profiles, target)
    requires after.profiles == Without(before.profiles, target) && after.open == Closed(before.open, target)
    requires before.active != target ==> after.active == before.active
    ensures after == before
  {
    forall p | p in before.profiles
      ensures p.id != target
    {
      assert !Names(p, target);
    }
    WithoutAbsent(before.profiles, target);
    assert !RunnableId(before.profiles, target);
    ClosedAbsent(before.open, target);
  }

  lemma ApplyChangesIff(before: State, ref: State, runner: Runner, host: string, clientTty: string, after: State)
    requires Achieved(before, ref, Apply(runner, host, clientTty), after)
    ensures after != before <==>
            exists p :: p in before.profiles && Names(p, ref.active) && !AlreadySet(p, runner, host, clientTty)
  {
    if p :| p in before.profiles && Names(p, ref.active) && !AlreadySet(p, runner, host, clientTty) {
      var i :| 0 <= i < |before.profiles| && before.profiles[i] == p;
      assert after.profiles[i] != before.profiles[i];
    } else {
      forall i | 0 <= i < |before.profiles|
        ensures after.profiles[i] == before.profiles[i]
      {
        assert Names(before.profiles[i], ref.active) ==> AlreadySet(before.profiles[i], runner, host, clientTty);
      }
    }
  }

  lemma EnableChanges(before: State, ref: State, id: Id, enabled: bool, after: State)
    requires Acts(before, ref, Enable(id, enabled)) && Achieved(before, ref, Enable(id, enabled), after)
    ensures after != before
  {
    var p :| p in before.profiles && p.Ssh? && Names(p, id) && p.enabled != enabled;
    var i :| 0 <= i < |before.profiles| && before.profiles[i] == p;
    assert after.profiles[i] != before.profiles[i];
  }

  lemma RecordChanges(before: State, ref: State, id: Id, host: string, key: RunnerKey, after: State)
    requires Acts(before, ref, RecordProbe(id, host, key)) && Achieved(before, ref, RecordProbe(id, host, key), after)
    ensures after != before
  {
    var p :| p in before.profiles && IsProbeOf(p, id, host, key);
    var i :| 0 <= i < |before.profiles| && before.profiles[i] == p;
    assert after.profiles[i] != before.profiles[i];
  }
}
