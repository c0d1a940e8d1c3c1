/**
 The edits after which the profile store does not do what its callers may expect
 (desktop/src/effect/Profiles.ts), each reached from a fresh installation by mutators
 of one window.
 */
module ProfileWitnesses {
  import opened Options
  import opened ProfileModel
  import opened ProfileLaws
  import opened ProfileReorder
  import opened ProfileEdits
  import opened ProfileStore
  import opened ProfileReads

  /** Nothing stored yet, and both windows open. */
  function Fresh(runner: Runner): System {
    System(Storage(None, runner), DefaultState(runner), DefaultState(runner))
  }

  ghost predicate Reachable(s: System) {
    exists runner, events :: AllAdmissible(Fresh(runner), events) && Run(Fresh(runner), events) == s
  }

  lemma {:induction false} OneMoreEvent(s: System, events: seq<Event>, e: Event)
    requires AllAdmissible(s, events) && Admissible(Run(s, events), e)
    ensures AllAdmissible(s, events + [e]) && Run(s, events + [e]) == Step(Run(s, events), e)
    decreases |events|
  {
    if events == [] {
      assert [] + [e] == [e] && [e][1..] == [];
    } else {
      assert (events + [e])[1..] == events[1..] + [e];
      OneMoreEvent(Step(s, events[0]), events[1..], e);
    }
  }

  lemma ReachableStep(s: System, e: Event)
    requires Reachable(s) && Admissible(s, e)
    ensures Reachable(Step(s, e))
  {
    var runner, events :| AllAdmissible(Fresh(runner), events) && Run(Fresh(runner), events) == s;
    OneMoreEvent(Fresh(runner), events, e);
  }

  /** A reachable state in which both windows are intact, the dock and storage agree on
      `now`, and the settings window still shows the fresh state. */
  ghost predicate DockAt(s: System, now: State, runner: Runner) {
    Reachable(s) && Inv(s) && Latest(s.storage) == now && s.dock == now && s.settings == DefaultState(runner)
  }

  lemma FreshIsThere(runner: Runner)
    ensures DockAt(Fresh(runner), DefaultState(runner), runner)
  {
    BothWindowsOpen(Fresh(runner).storage);
    assert AllAdmissible(Fresh(runner), []) && Run(Fresh(runner), []) == Fresh(runner);
  }

  /** The dock commits `next`. */
  lemma DockCommits(s: System, now: State, runner: Runner, m: Mutator, next: State)
    requires DockAt(s, now, runner) && Admissible(s, Event(Dock, m)) && !TouchesDisabled(now, m)
    requires EffectOf(now, now, m) == Write(next)
    ensures DockAt(Step(s, Event(Dock, m)), next, runner)
  {
    ReachableStep(s, Event(Dock, m));
    StepKeepsInv(s, Event(Dock, m));
    WriterAgreesIff(s, Event(Dock, m), next);
  }

  // ----- A fresh installation and one remote -----

  function LocalOne(runner: Runner): Profile {
    Local(LOCAL_PROFILE_ID, runner)
  }

  function Remote(id: Id, host: string, enabled: bool): Profile {
    Ssh(id, host, "", EMPTY_RUNNER, enabled, None)
  }

  function OneDraft(runner: Runner): State {
    State("a", [LocalOne(runner)] + [Remote("a", "", true)], [LOCAL_PROFILE_ID] + ["a"])
  }

  lemma AddsFirstDraft(runner: Runner) returns (s: System)
    ensures DockAt(s, OneDraft(runner), runner)
  {
    FreshIsThere(runner);
    var now := DefaultState(runner);
    assert now.profiles[..0] == [];
    assert DraftIndex(now.profiles) == 1;
    s := Step(Fresh(runner), Event(Dock, AddSsh("a")));
    DockCommits(Fresh(runner), now, runner, AddSsh("a"), OneDraft(runner));
  }

  lemma DraftIsSecond(runner: Runner, p: Profile)
    requires p.Ssh? && p.host == ""
    ensures DraftIndex([LocalOne(runner)] + [p]) == 1
  {
    var ps := [LocalOne(runner)] + [p];
    assert ps[0].Local? && ps[1] == p && ps[..1] == [LocalOne(runner)];
    assert [LocalOne(runner)][..0] == [];
    assert DraftIndex([LocalOne(runner)]) == 1;
  }

  lemma RemoteIsSecond(runner: Runner, p: Profile)
    requires p.id == "a"
    ensures IndexOf([LocalOne(runner)] + [p], "a") == 1
  {
    var ps := [LocalOne(runner)] + [p];
    assert ps[0].id == LOCAL_PROFILE_ID != "a" && ps[1] == p;
  }

  // ----- The writer and storage can disagree -----

  /** The draft is disabled: the dock reads it as the second profile, closed and not
      selected. */
  lemma DisablesTheDraft(runner: Runner) returns (s: System, now: State)
    ensures DockAt(s, now, runner) && now.profiles == [LocalOne(runner)] + [Remote("a", "", false)]
    ensures now.active != "a" && "a" !in now.open
  {
    var before := AddsFirstDraft(runner);
    var was := OneDraft(runner);
    LatestIsNormal(before.storage);
    RemoteIsSecond(runner, Remote("a", "", true));
    now := SetEnabled(was, "a", false);
    EnableChangesOneSource(was, "a", false);
    assert now.profiles == [LocalOne(runner)] + [Remote("a", "", false)];
    s := Step(before, Event(Dock, Enable("a", false)));
    DockCommits(before, was, runner, Enable("a", false), now);
    LatestIsNormal(s.storage);
    RunnableAt(now.profiles, 1);
  }

  /** The dock's mutator commits a state that storage is not read back as. */
  ghost predicate SplitsWindows(s: System, m: Mutator) {
    && Reachable(s) && Admissible(s, Event(Dock, m)) && EffectOf(Latest(s.storage), s.dock, m).Write?
    && Latest(Step(s, Event(Dock, m)).storage) != Step(s, Event(Dock, m)).dock
  }

  /** Adding a remote while the only draft is disabled selects and opens that draft, and
      toggling it opens it; storage is read back with neither. */
  lemma DisabledDraftSplitsWindows(runner: Runner, toggles: bool)
    ensures exists s: System, m: Mutator :: SplitsWindows(s, m) && (if toggles then m.Toggle? else m.AddSsh?)
  {
    var s, now := DisablesTheDraft(runner);
    var m := if toggles then Toggle("a") else AddSsh("b");
    DraftIsSecond(runner, Remote("a", "", false));
    RemoteIsSecond(runner, Remote("a", "", false));
    NewIdIsFree(s, now, runner);
    assert TouchesDisabled(now, m);
    WriterAgreesIff(s, Event(Dock, m), EffectOf(now, s.dock, m).next);
    assert SplitsWindows(s, m);
  }

  lemma NewIdIsFree(s: System, now: State, runner: Runner)
    requires DockAt(s, now, runner) && exists p :: now.profiles == [LocalOne(runner)] + [p] && p.id == "a"
    ensures Admissible(s, Event(Dock, AddSsh("b")))
  {
  }

  // ----- An accepted edit can lose a source -----

  function TwoRemotes(runner: Runner, active: Id): State {
    State(active, [LocalOne(runner)] + [Remote("a", "box", true)] + [Remote("b", "", true)],
          [LOCAL_PROFILE_ID] + ["a"] + ["b"])
  }

  lemma ConfiguresTheDraft(runner: Runner) returns (s: System)
    ensures DockAt(s, OneDraft(runner).(profiles := [LocalOne(runner)] + [Remote("a", "box", true)]), runner)
  {
    var before := AddsFirstDraft(runner);
    var was := OneDraft(runner);
    LatestIsNormal(before.storage);
    RemoteIsSecond(runner, Remote("a", "", true));
    UpdateIsAReplacement(was.profiles, 1, EMPTY_RUNNER, "box", "");
    var next := was.(profiles := [LocalOne(runner)] + [Remote("a", "box", true)]);
    assert was.profiles[1 := Remote("a", "box", true)] == next.profiles;
    var m := Apply(EMPTY_RUNNER, "box", "");
    s := Step(before, Event(Dock, m));
    DockCommits(before, was, runner, m, next);
  }

  lemma AddsAnother(runner: Runner) returns (s: System)
    ensures DockAt(s, TwoRemotes(runner, "b"), runner)
  {
    var before := ConfiguresTheDraft(runner);
    var was := OneDraft(runner).(profiles := [LocalOne(runner)] + [Remote("a", "box", true)]);
    NewIdIsFree(before, was, runner);
    NoDraft(runner);
    s := Step(before, Event(Dock, AddSsh("b")));
    DockCommits(before, was, runner, AddSsh("b"), TwoRemotes(runner, "b"));
  }

  lemma NoDraft(runner: Runner)
    ensures DraftIndex([LocalOne(runner)] + [Remote("a", "box", true)]) == 2
  {
    var ps := [LocalOne(runner)] + [Remote("a", "box", true)];
    assert ps[0].Local? && ps[1] == Remote("a", "box", true);
  }

  lemma FindsTheFirstRemote(runner: Runner, active: Id)
    ensures IndexOf(TwoRemotes(runner, active).profiles, "a") == 1
  {
    var ps := TwoRemotes(runner, active).profiles;
    assert ps[0].id == LOCAL_PROFILE_ID != "a" && ps[1].id == "a";
  }

  lemma SelectsTheFirst(runner: Runner) returns (s: System)
    ensures DockAt(s, TwoRemotes(runner, "a"), runner)
  {
    var before := AddsAnother(runner);
    FindsTheFirstRemote(runner, "b");
    s := Step(before, Event(Dock, Select("a")));
    DockCommits(before, TwoRemotes(runner, "b"), runner, Select("a"), TwoRemotes(runner, "a"));
  }

  /** The dock's edit is accepted, and a source that was stored is not any more. */
  ghost predicate LosesASource(s: System, host: string) {
    var after := Step(s, Event(Dock, Apply(EMPTY_RUNNER, host, "")));
    Reachable(s) && !Refused(Latest(s.storage), s.dock.active, host) && IdSet(Profiles(after)) != IdSet(Profiles(s))
  }

  /** Emptying the host of the configured remote while the other is unconfigured is
      accepted, and afterwards one of the two is gone. */
  lemma EmptyHostLosesASource(runner: Runner)
    ensures exists s :: LosesASource(s, "")
  {
    var s := SelectsTheFirst(runner);
    var ps := Profiles(s);
    FindsTheFirstRemote(runner, "a");
    assert ps[2] == Remote("b", "", true) && ps[2] in ps;
    assert SwallowsADraft(ps, "a", "");
    ApplyKeepsSourcesIff(s, Dock, EMPTY_RUNNER, "", "");
    assert LosesASource(s, "");
  }
}
