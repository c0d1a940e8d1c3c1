/**
 Two windows sharing the persisted profiles (desktop/src/effect/Profiles.ts). Each
 window holds its own, possibly stale, copy of the state; every mutator is one
 atomic step that merges onto what storage holds now.
 */
module ProfileStore {
  import opened Options
  import opened ProfileModel
  import opened ProfileLaws
  import opened ProfileReorder
  import opened Sequences
  import opened ProfileEdits

  // The profiles key and the mirror of the local profile's runner.
  datatype Storage = Storage(raw: Option<Persisted>, mirror: Runner)

  datatype Mutator =
    | Select(id: Id)
    | AddSsh(newId: Id)
    | DeleteActive
    | Apply(runner: Runner, host: string, clientTty: string)
    | Toggle(id: Id)
    | Reorder(id: Id, target: Id)
    | Enable(id: Id, enabled: bool)
    | RecordProbe(id: Id, host: string, key: RunnerKey)
    | Reload

  // What a mutator decides to do.
  datatype Effect =
    | Nothing
    | Adopt                // take over what storage holds
    | Write(next: State)   // store, tell the other window, take over

  function DefaultState(runner: Runner): State {
    State(LOCAL_PROFILE_ID, [Local(LOCAL_PROFILE_ID, runner)], [LOCAL_PROFILE_ID])
  }

  ghost function Latest(st: Storage): State {
    if st.raw.None? then DefaultState(st.mirror) else Normalize(st.raw.value, st.mirror)
  }

  /** Index of the unconfigured remote, or the length. */
  function DraftIndex(ps: seq<Profile>): (i: nat)
    ensures i <= |ps|
    ensures i < |ps| ==> ps[i].Ssh? && ps[i].host == ""
    ensures forall k :: 0 <= k < i ==> !(ps[k].Ssh? && ps[k].host == "")
  {
    if ps == [] then 0
    else
      var n := |ps| - 1;
      var i := DraftIndex(ps[..n]);
      if i < n || (ps[n].Ssh? && ps[n].host == "") then i else n + 1
  }

  function LocalIndex(ps: seq<Profile>): (i: nat)
    ensures i <= |ps|
    ensures i < |ps| ==> ps[i].Local?
    ensures forall k :: 0 <= k < i ==> ps[k].Ssh?
  {
    if ps == [] then 0
    else
      var n := |ps| - 1;
      var i := LocalIndex(ps[..n]);
      if i < n || ps[n].Local? then i else n + 1
  }

  lemma {:induction false} AllVisible(ps: seq<Profile>)
    requires forall p :: p in ps ==> Visible(p)
    ensures VisibleOf(ps) == ps
    decreases |ps|
  {
    if ps != [] {
      var n := |ps| - 1;
      assert ps == ps[..n] + [ps[n]] && ps[n] in ps;
      AllVisible(ps[..n]);
    }
  }

  lemma HiddenAlone(p: Profile)
    requires !Visible(p)
    ensures VisibleOf([p]) == []
  {
    assert [p][..0] == [];
  }

  lemma OneHidden(a: seq<Profile>, p: Profile, b: seq<Profile>)
    requires !Visible(p) && VisibleOf(a) == a && VisibleOf(b) == b
    ensures VisibleOf(a + [p] + b) == a + b
  {
    VisibleConcat(a + [p], b);
    VisibleConcat(a, [p]);
    HiddenAlone(p);
  }

  lemma OthersAreConfigured(ps: seq<Profile>, i: nat)
    requires DistinctHosts(ps) && i < |ps| && ps[i].Ssh? && ps[i].host == ""
    ensures forall q :: q in ps[..i] || q in ps[i + 1..] ==> Visible(q)
  {
  }

  /** What the menu hides is the unconfigured remote, of which a settled list has at
      most one, and nothing else. */
  lemma OnlyTheDraftIsHidden(ps: seq<Profile>)
    requires DistinctHosts(ps)
    ensures VisibleOf(ps) == if DraftIndex(ps) < |ps| then Cut(ps, DraftIndex(ps)) else ps
  {
    var i := DraftIndex(ps);
    if i < |ps| {
      OthersAreConfigured(ps, i);
      AllVisible(ps[..i]);
      AllVisible(ps[i + 1..]);
      OneHidden(ps[..i], ps[i], ps[i + 1..]);
      SplitAt(ps, i);
    } else {
      AllVisible(ps);
    }
  }

  // ----- What each mutator decides, given storage and its window's copy -----

  function SelectEffect(latest: State, id: Id): Effect {
    var i := IndexOf(latest.profiles, id);
    if id == latest.active then Adopt
    else if i == |latest.profiles| || !Runnable(latest.profiles[i]) then Nothing
    else Write(latest.(active := id))
  }

  function AddEffect(latest: State, newId: Id): Effect {
    var i := DraftIndex(latest.profiles);
    if i < |latest.profiles| then
      var draft := latest.profiles[i].id;
      var open := Opened(latest.open, draft);
      if draft != latest.active || open != latest.open then Write(latest.(active := draft, open := open)) else Adopt
    else
      var added := Ssh(newId, "", "", EMPTY_RUNNER, true, None);
      Write(State(newId, latest.profiles + [added], latest.open + [newId]))
  }

  /** The target is what this window believes to be active. */
  function DeleteTarget(ref: State): Option<Id> {
    if ref.profiles == [] || ActiveProfile(ref).Local? then None else Some(ActiveProfile(ref).id)
  }

  function AfterDelete(latest: State, target: Id): Persisted {
    var rest := Without(latest.profiles, target);
    var local := LocalIndex(rest);
    var fallback := if local < |rest| then Some(rest[local].id) else if rest != [] then Some(rest[0].id) else None;
    Persisted(if IndexOf(rest, latest.active) < |rest| then Some(latest.active) else fallback, rest, Some(latest.open))
  }

  ghost function DeleteEffect(latest: State, ref: State): Effect {
    match DeleteTarget(ref)
    case None => Nothing
    case Some(target) => Write(Normalize(AfterDelete(latest, target), EMPTY_RUNNER))
  }

  /** An edit that would take another source's host is refused. */
  ghost predicate Refused(latest: State, edited: Id, host: string) {
    var i := IndexOf(latest.profiles, edited);
    i < |latest.profiles| && latest.profiles[i].Ssh? && HostCollides(latest.profiles, edited, host)
  }

  ghost function ApplyEffect(latest: State, edited: Id, runner: Runner, host: string, clientTty: string): Effect {
    if Refused(latest, edited, host) then Adopt
    else Write(latest.(profiles := UpdateById(latest.profiles, edited, runner, host, clientTty)))
  }

  function IfChanged(latest: State, next: State): Effect {
    if next == latest then Nothing else Write(next)
  }

  ghost function EnableEffect(latest: State, id: Id, enabled: bool): Effect {
    match EnabledEdit(latest, id, enabled)
    case None => Nothing
    case Some(edited) => Write(Normalize(AsPersisted(edited), EMPTY_RUNNER))
  }

  ghost function EffectOf(latest: State, ref: State, m: Mutator): Effect {
    match m
    case Select(id) => SelectEffect(latest, id)
    case AddSsh(newId) => AddEffect(latest, newId)
    case DeleteActive => DeleteEffect(latest, ref)
    case Apply(runner, host, clientTty) => ApplyEffect(latest, ref.active, runner, host, clientTty)
    case Toggle(id) => IfChanged(latest, ToggleOpen(latest, id))
    case Reorder(id, target) => IfChanged(latest, latest.(profiles := Reordered(latest.profiles, id, target)))
    case Enable(id, enabled) => EnableEffect(latest, id, enabled)
    case RecordProbe(id, host, key) => IfChanged(latest, RecordProbed(latest, id, host, key))
    case Reload => Adopt
  }

  function Stored(st: Storage, next: State): Storage {
    var local := LocalIndex(next.profiles);
    Storage(Some(AsPersisted(next)), if local < |next.profiles| then next.profiles[local].runner else st.mirror)
  }

  ghost function StorageAfter(st: Storage, ref: State, m: Mutator): Storage {
    match EffectOf(Latest(st), ref, m)
    case Write(next) => Stored(st, next)
    case _ => st
  }

  ghost function RefAfter(st: Storage, ref: State, m: Mutator): State {
    match EffectOf(Latest(st), ref, m)
    case Nothing => ref
    case Adopt => Latest(st)
    case Write(next) => next
  }

  // ----- Two windows -----

  datatype Window = Dock | Settings

  datatype System = System(storage: Storage, dock: State, settings: State) {
    function Ref(w: Window): State {
      if w.Dock? then dock else settings
    }
  }

  datatype Event = Event(window: Window, mutator: Mutator)

  ghost function Step(s: System, e: Event): System {
    var ref := RefAfter(s.storage, s.Ref(e.window), e.mutator);
    System(StorageAfter(s.storage, s.Ref(e.window), e.mutator),
           if e.window.Dock? then ref else s.dock, if e.window.Settings? then ref else s.settings)
  }

  ghost function Profiles(s: System): seq<Profile> {
    Latest(s.storage).profiles
  }

  /** What the callers provide: new ids are new, and an SSH source is not retargeted
      to an empty host while another unconfigured one exists, as form validation, which
      demands a host, makes sure. */
  ghost predicate Admissible(s: System, e: Event) {
    match e.mutator
    case AddSsh(newId) => newId !in IdSet(Profiles(s)) + IdSet(s.dock.profiles) + IdSet(s.settings.profiles)
    case Apply(_, host, _) => !SwallowsADraft(Profiles(s), s.Ref(e.window).active, host)
    case _ => true
  }

  /** Another unconfigured source exists besides the one being emptied. */
  ghost predicate SwallowsADraft(ps: seq<Profile>, edited: Id, host: string) {
    var i := IndexOf(ps, edited);
    host == "" && i < |ps| && ps[i].Ssh? && HostTaken(ps, edited, "")
  }

  ghost predicate Readable(st: Storage) {
    st.raw.Some? ==> Tidy(st.raw.value.profiles)
  }

  ghost predicate Inv(s: System) {
    && Readable(s.storage)
    && HasLocal(s.dock.profiles) && HasLocal(s.settings.profiles)
    && SameKinds(s.dock.profiles, Profiles(s)) && SameKinds(s.settings.profiles, Profiles(s))
  }

  lemma LatestIsNormal(st: Storage)
    requires Readable(st)
    ensures Normal(Latest(st)) && Solid(Latest(st).profiles)
  {
    if st.raw.Some? {
      NormalizeIsNormalIff(st.raw.value, st.mirror);
    } else {
      assert Names(Local(LOCAL_PROFILE_ID, st.mirror), LOCAL_PROFILE_ID);
      assert Latest(st).profiles[0].Local?;
    }
  }

  // ----- What one step does to the profiles -----

  ghost function Added(latest: State, m: Mutator): set<Id> {
    if m.AddSsh? && DraftIndex(latest.profiles) == |latest.profiles| then {m.newId} else {}
  }

  ghost function Deleted(ref: State, m: Mutator): set<Id> {
    if m.DeleteActive? && DeleteTarget(ref).Some? then {DeleteTarget(ref).value} else {}
  }

  /** The list a mutator writes: one that normalising leaves alone, with exactly the
      expected profiles. */
  ghost predicate WritesWell(latest: State, ref: State, m: Mutator, after: seq<Profile>) {
    && Solid(after) && SameKinds(latest.profiles, after)
    && IdSet(after) == IdSet(latest.profiles) + Added(latest, m) - Deleted(ref, m)
  }

  lemma AddWrites(latest: State, ref: State, newId: Id)
    requires Solid(latest.profiles) && newId !in IdSet(latest.profiles) && AddEffect(latest, newId).Write?
    ensures WritesWell(latest, ref, AddSsh(newId), AddEffect(latest, newId).next.profiles)
  {
    if DraftIndex(latest.profiles) == |latest.profiles| {
      AppendKeepsSolid(latest.profiles, Ssh(newId, "", "", EMPTY_RUNNER, true, None));
    }
  }

  lemma TargetIsRemote(latest: State, ref: State)
    requires SameKinds(ref.profiles, latest.profiles) && DeleteTarget(ref).Some?
    ensures var i := IndexOf(latest.profiles, DeleteTarget(ref).value);
            i < |latest.profiles| ==> latest.profiles[i].Ssh?
  {
    var p := ActiveProfile(ref);
    assert p in ref.profiles;
    var i := IndexOf(latest.profiles, p.id);
    if i < |latest.profiles| {
      assert latest.profiles[i] in latest.profiles;
    }
  }

  lemma TargetIsRemoved(ps: seq<Profile>, target: Id)
    requires Solid(ps) && (IndexOf(ps, target) < |ps| ==> ps[IndexOf(ps, target)].Ssh?)
    ensures Solid(Without(ps, target)) && SameKinds(ps, Without(ps, target))
    ensures IdSet(Without(ps, target)) == IdSet(ps) - {target}
  {
    var i := IndexOf(ps, target);
    if i < |ps| {
      WithoutKeepsSolid(ps, i);
    } else {
      WithoutAbsent(ps, target);
      SolidIsOneEach(ps);
    }
  }

  lemma RemovalWritesWell(latest: State, ref: State, after: seq<Profile>)
    requires DeleteTarget(ref).Some? && Solid(after) && SameKinds(latest.profiles, after)
    requires IdSet(after) == IdSet(latest.profiles) - {DeleteTarget(ref).value}
    ensures WritesWell(latest, ref, DeleteActive, after)
  {
    assert Added(latest, DeleteActive) == {};
  }

  lemma DeleteWrites(latest: State, ref: State)
    requires Solid(latest.profiles) && SameKinds(ref.profiles, latest.profiles) && DeleteTarget(ref).Some?
    ensures DeleteEffect(latest, ref).Write? && WritesWell(latest, ref, DeleteActive, DeleteEffect(latest, ref).next.profiles)
  {
    var target := DeleteTarget(ref).value;
    var after := Without(latest.profiles, target);
    TargetIsRemote(latest, ref);
    TargetIsRemoved(latest.profiles, target);
    RemovalWritesWell(latest, ref, after);
    WrittenByDelete(latest, target);
  }

  lemma WrittenByDelete(latest: State, target: Id)
    requires Solid(Without(latest.profiles, target))
    ensures Normalize(AfterDelete(latest, target), EMPTY_RUNNER).profiles == Without(latest.profiles, target)
  {
    SolidStays(Without(latest.profiles, target), EMPTY_RUNNER);
  }

  lemma ApplyWrites(latest: State, ref: State, runner: Runner, host: string, clientTty: string)
    requires Solid(latest.profiles) && !SwallowsADraft(latest.profiles, ref.active, host)
    requires ApplyEffect(latest, ref.active, runner, host, clientTty).Write?
    ensures WritesWell(latest, ref, Apply(runner, host, clientTty),
                       ApplyEffect(latest, ref.active, runner, host, clientTty).next.profiles)
  {
    var i := IndexOf(latest.profiles, ref.active);
    if i < |latest.profiles| {
      UpdateIsAReplacement(latest.profiles, i, runner, host, clientTty);
      ReplaceKeepsSolid(latest.profiles, i, WithSettings(latest.profiles[i], runner, host, clientTty));
    } else {
      UpdateUnknownIsInert(latest.profiles, ref.active, runner, host, clientTty);
    }
  }

  lemma EnableWrites(latest: State, ref: State, id: Id, enabled: bool)
    requires Solid(latest.profiles) && EnabledEdit(latest, id, enabled).Some?
    ensures EnableEffect(latest, id, enabled).Write?
    ensures WritesWell(latest, ref, Enable(id, enabled), EnableEffect(latest, id, enabled).next.profiles)
  {
    var i := IndexOf(latest.profiles, id);
    OwnHostIsFree(latest.profiles, i);
    ReplaceKeepsSolid(latest.profiles, i, latest.profiles[i].(enabled := enabled));
    SolidStays(EnabledEdit(latest, id, enabled).value.profiles, EMPTY_RUNNER);
  }

  lemma RecordWrites(latest: State, ref: State, id: Id, host: string, key: RunnerKey)
    requires Solid(latest.profiles)
    ensures WritesWell(latest, ref, RecordProbe(id, host, key), RecordProbed(latest, id, host, key).profiles)
  {
    var i := IndexOf(latest.profiles, id);
    if i < |latest.profiles| && latest.profiles[i].Ssh? {
      OwnHostIsFree(latest.profiles, i);
      ReplaceKeepsSolid(latest.profiles, i, latest.profiles[i].(probedHost := Some(host)));
    }
  }

  lemma SelectionWrites(latest: State, ref: State, m: Mutator)
    requires Solid(latest.profiles) && EffectOf(latest, ref, m).Write?
    requires m.Select? || m.AddSsh? || m.Toggle? || m.Reorder?
    requires m.AddSsh? ==> m.newId !in IdSet(latest.profiles)
    ensures WritesWell(latest, ref, m, EffectOf(latest, ref, m).next.profiles)
  {
    match m
    case Select(_) =>
    case AddSsh(newId) => AddWrites(latest, ref, newId);
    case Toggle(_) =>
    case Reorder(id, target) => ReorderKeepsSolid(latest.profiles, id, target);
  }

  lemma SettingsWrites(latest: State, ref: State, m: Mutator)
    requires Solid(latest.profiles) && SameKinds(ref.profiles, latest.profiles) && EffectOf(latest, ref, m).Write?
    requires m.DeleteActive? || m.Apply? || m.Enable? || m.RecordProbe?
    requires m.Apply? ==> !SwallowsADraft(latest.profiles, ref.active, m.host)
    ensures WritesWell(latest, ref, m, EffectOf(latest, ref, m).next.profiles)
  {
    match m
    case DeleteActive => DeleteWrites(latest, ref);
    case Apply(runner, host, clientTty) => ApplyWrites(latest, ref, runner, host, clientTty);
    case Enable(id, enabled) => EnableWrites(latest, ref, id, enabled);
    case RecordProbe(id, host, key) => RecordWrites(latest, ref, id, host, key);
  }

  lemma MutatorWrites(s: System, e: Event)
    requires Inv(s) && Admissible(s, e)
    requires EffectOf(Latest(s.storage), s.Ref(e.window), e.mutator).Write?
    ensures WritesWell(Latest(s.storage), s.Ref(e.window), e.mutator,
                       EffectOf(Latest(s.storage), s.Ref(e.window), e.mutator).next.profiles)
  {
    var latest, ref, m := Latest(s.storage), s.Ref(e.window), e.mutator;
    LatestIsNormal(s.storage);
    if m.Select? || m.AddSsh? || m.Toggle? || m.Reorder? {
      SelectionWrites(latest, ref, m);
    } else {
      SettingsWrites(latest, ref, m);
    }
  }

  /** What a commit wrote is what every later read finds. */
  lemma CommitReadsBack(st: Storage, next: State)
    requires Solid(next.profiles)
    ensures Readable(Stored(st, next)) && Latest(Stored(st, next)).profiles == next.profiles
  {
    SolidStays(next.profiles, Stored(st, next).mirror);
    NormalizeIsNormal(AsPersisted(next), Stored(st, next).mirror);
    NormalizeIsNormalIff(AsPersisted(next), Stored(st, next).mirror);
  }

  /** One step leaves every profile stored, but for a deletion's own target. */
  lemma StepProfiles(s: System, e: Event)
    requires Inv(s) && Admissible(s, e)
    ensures Readable(Step(s, e).storage)
    ensures IdSet(Profiles(Step(s, e)))
            == IdSet(Profiles(s)) + Added(Latest(s.storage), e.mutator) - Deleted(s.Ref(e.window), e.mutator)
    ensures SameKinds(Profiles(s), Profiles(Step(s, e)))
  {
    var latest, ref := Latest(s.storage), s.Ref(e.window);
    LatestIsNormal(s.storage);
    if EffectOf(latest, ref, e.mutator).Write? {
      MutatorWrites(s, e);
      CommitReadsBack(s.storage, EffectOf(latest, ref, e.mutator).next);
    } else {
      SolidIsOneEach(latest.profiles);
      NothingWritten(latest, ref, e.mutator);
    }
  }

  lemma NothingWritten(latest: State, ref: State, m: Mutator)
    requires !EffectOf(latest, ref, m).Write?
    ensures Added(latest, m) == {} && Deleted(ref, m) == {}
  {
  }

  // ----- Runs -----

  lemma OthersStillAgree(other: seq<Profile>, before: seq<Profile>, after: seq<Profile>, newIds: set<Id>)
    requires SameKinds(other, before) && SameKinds(before, after)
    requires IdSet(after) <= IdSet(before) + newIds && IdSet(other) !! newIds
    ensures SameKinds(other, after)
  {
    forall p, q | p in other && q in after && p.id == q.id
      ensures p.Ssh? <==> q.Ssh?
    {
      assert p.id in IdSet(other) && q.id in IdSet(after);
      var r :| r in before && r.id == q.id;
    }
  }

  lemma StepKeepsInv(s: System, e: Event)
    requires Inv(s) && Admissible(s, e)
    ensures Inv(Step(s, e))
  {
    var latest, ref := Latest(s.storage), s.Ref(e.window);
    var effect := EffectOf(latest, ref, e.mutator);
    StepProfiles(s, e);
    LatestIsNormal(s.storage);
    if effect.Write? {
      MutatorWrites(s, e);
      CommitReadsBack(s.storage, effect.next);
      SolidIsOneEach(effect.next.profiles);
      OthersStillAgree(s.dock.profiles, Profiles(s), effect.next.profiles, Added(latest, e.mutator));
      OthersStillAgree(s.settings.profiles, Profiles(s), effect.next.profiles, Added(latest, e.mutator));
    } else {
      SolidIsOneEach(latest.profiles);
    }
  }

  ghost function Run(s: System, events: seq<Event>): System
    decreases |events|
  {
    if events == [] then s else Run(Step(s, events[0]), events[1..])
  }

  ghost predicate AllAdmissible(s: System, events: seq<Event>)
    decreases |events|
  {
    events == [] || (Admissible(s, events[0]) && AllAdmissible(Step(s, events[0]), events[1..]))
  }

  /** Some step of the run deletes this profile as its target. */
  ghost predicate Deletes(s: System, events: seq<Event>, id: Id)
    decreases |events|
  {
    events != [] && (id in Deleted(s.Ref(events[0].window), events[0].mutator) || Deletes(Step(s, events[0]), events[1..], id))
  }

  lemma BothWindowsOpen(st: Storage)
    requires Readable(st)
    ensures Inv(System(st, Latest(st), Latest(st)))
  {
    LatestIsNormal(st);
    SolidIsOneEach(Latest(st).profiles);
  }

  /** However the two windows' mutators interleave, a stored profile is still there
      at every later reload unless a deletion was aimed at it. */
  lemma {:induction false} NoSilentDeletion(s: System, events: seq<Event>, id: Id)
    requires Inv(s) && AllAdmissible(s, events) && id in IdSet(Profiles(s)) && !Deletes(s, events, id)
    ensures Inv(Run(s, events)) && id in IdSet(Profiles(Run(s, events)))
    decreases |events|
  {
    if events != [] {
      StepProfiles(s, events[0]);
      StepKeepsInv(s, events[0]);
      NoSilentDeletion(Step(s, events[0]), events[1..], id);
    }
  }

  // ----- The one edit that can lose a source -----

  lemma OnlyOnePerHost(ps: seq<Profile>, fallback: Runner, p: Profile, q: Profile)
    requires DistinctIds(ps) && HasLocal(ps) && p in ps && q in ps && p != q && SameConnection(p, q)
    ensures !(p.id in IdSet(NormalProfiles(ps, fallback)) && q.id in IdSet(NormalProfiles(ps, fallback)))
  {
    var kept := NormalProfiles(ps, fallback);
    DistinctIdsKeepHostsOnce(ps);
    KeeperIsKeptAlone(ps, fallback, p);
    KeptLocals(ps, Survivors(ps, Hosts(ps)));
    forall r | r in {p, q} && r.id in IdSet(kept)
      ensures r in kept
    {
      var k :| k in kept && k.id == r.id;
      SameIdSameProfile(ps, k, r);
    }
  }

  lemma WrittenIsRead(st: Storage, next: State)
    ensures Latest(Stored(st, next)).profiles == NormalProfiles(next.profiles, Stored(st, next).mirror)
  {
  }

  lemma StepStores(s: System, e: Event, next: State)
    requires EffectOf(Latest(s.storage), s.Ref(e.window), e.mutator) == Write(next)
    ensures Step(s, e).storage == Stored(s.storage, next)
  {
  }

  lemma AcceptedEditIsRead(s: System, w: Window, runner: Runner, host: string, clientTty: string) returns (fallback: Runner)
    requires !Refused(Latest(s.storage), s.Ref(w).active, host)
    ensures Profiles(Step(s, Event(w, Apply(runner, host, clientTty))))
            == NormalProfiles(UpdateById(Profiles(s), s.Ref(w).active, runner, host, clientTty), fallback)
  {
    var next := Latest(s.storage).(profiles := UpdateById(Profiles(s), s.Ref(w).active, runner, host, clientTty));
    StepStores(s, Event(w, Apply(runner, host, clientTty)), next);
    WrittenIsRead(s.storage, next);
    fallback := Stored(s.storage, next).mirror;
  }

  /** An accepted edit keeps every source exactly if it does not empty the host of
      one remote while another remote is still unconfigured. */
  lemma ApplyKeepsSourcesIff(s: System, w: Window, runner: Runner, host: string, clientTty: string)
    requires Inv(s) && !Refused(Latest(s.storage), s.Ref(w).active, host)
    ensures IdSet(Profiles(s)) == IdSet(Profiles(Step(s, Event(w, Apply(runner, host, clientTty)))))
            <==> !SwallowsADraft(Profiles(s), s.Ref(w).active, host)
  {
    var ps, edited := Profiles(s), s.Ref(w).active;
    if SwallowsADraft(ps, edited, host) {
      LatestIsNormal(s.storage);
      var fallback := AcceptedEditIsRead(s, w, runner, host, clientTty);
      var i := IndexOf(ps, edited);
      UpdateIsAReplacement(ps, i, runner, host, clientTty);
      DraftIsSwallowed(ps, i, WithSettings(ps[i], runner, host, clientTty), fallback);
    } else {
      StepProfiles(s, Event(w, Apply(runner, host, clientTty)));
    }
  }

  lemma DraftIsSwallowed(ps: seq<Profile>, i: nat, p: Profile, fallback: Runner)
    requires Solid(ps) && i < |ps| && p.Ssh? && p.id == ps[i].id && ps[i].Ssh? && HostTaken(ps, p.id, p.host)
    ensures IdSet(NormalProfiles(ps[i := p], fallback)) != IdSet(ps)
  {
    var after := ps[i := p];
    var q :| q in ps && q.id != p.id && q.Ssh? && q.host == p.host;
    var j :| 0 <= j < |ps| && ps[j] == q;
    assert after[i] == p && after[j] == q;
    var local :| local in ps && local.Local?;
    var k :| 0 <= k < |ps| && ps[k] == local;
    assert after[k].Local?;
    OnlyOnePerHost(after, fallback, p, q);
    assert ps[i] in ps;
    assert p.id in IdSet(ps) && q.id in IdSet(ps);
  }
}
