/**
 One window's profile service (desktop/src/effect/Profiles.ts:62-251): each mutator
 reads the shared storage, decides, and writes through a commit.
 */
module ProfileService {
  import opened Options
  import opened ProfileModel
  import opened ProfileLaws
  import opened ProfileReorder
  import opened ProfileEdits
  import opened ProfileStore

  class PrefsBridge {
    var raw: Option<Persisted>
    var mirror: Runner
    var emits: nat // cross-window notifications sent

    constructor (raw: Option<Persisted>, mirror: Runner)
      ensures Contents() == Storage(raw, mirror) && emits == 0
    {
      this.raw, this.mirror, emits := raw, mirror, 0;
    }

    function Contents(): Storage
      reads this
    {
      Storage(raw, mirror)
    }

    method Load() returns (s: State)
      ensures s == Latest(Contents())
    {
      match raw
      case None => s := DefaultState(mirror);
      case Some(value) => s := NormalizeProfileState(value, mirror);
    }

    method Store(next: State)
      modifies this
      ensures Contents() == Stored(old(Contents()), next) && emits == old(emits) + 1
    {
      raw := Some(AsPersisted(next));
      var local := LocalIndex(next.profiles);
      if local < |next.profiles| {
        mirror := next.profiles[local].runner;
      }
      emits := emits + 1;
    }
  }

  method Collides(ps: seq<Profile>, id: Id, host: string) returns (collides: bool)
    ensures collides <==> HostCollides(ps, id, host)
  {
    if host == "" {
      return false;
    }
    for i := 0 to |ps|
      invariant forall k :: 0 <= k < i ==> !(ps[k].id != id && ps[k].Ssh? && ps[k].host == host)
    {
      if ps[i].id != id && ps[i].Ssh? && ps[i].host == host {
        return true;
      }
    }
    return false;
  }

  method Refuses(latest: State, edited: Id, host: string) returns (refused: bool)
    ensures refused <==> Refused(latest, edited, host)
  {
    var i := IndexOf(latest.profiles, edited);
    if i == |latest.profiles| || latest.profiles[i].Local? {
      return false;
    }
    refused := Collides(latest.profiles, edited, host);
  }

  /** What a mutator leaves behind: storage, this window's copy, and the number of
      notifications, are what its decision says. */
  ghost predicate Performed(before: Storage, ref: State, emits: nat, m: Mutator, after: Storage, ref': State, emits': nat) {
    && after == StorageAfter(before, ref, m)
    && ref' == RefAfter(before, ref, m)
    && emits' == emits + if EffectOf(Latest(before), ref, m).Write? then 1 else 0
  }

  lemma Wrote(before: Storage, ref: State, emits: nat, m: Mutator, next: State)
    requires EffectOf(Latest(before), ref, m) == Write(next)
    ensures Performed(before, ref, emits, m, Stored(before, next), next, emits + 1)
  {
  }

  lemma Adopted(before: Storage, ref: State, emits: nat, m: Mutator)
    requires EffectOf(Latest(before), ref, m) == Adopt
    ensures Performed(before, ref, emits, m, before, Latest(before), emits)
  {
  }

  lemma LeftAlone(before: Storage, ref: State, emits: nat, m: Mutator)
    requires EffectOf(Latest(before), ref, m) == Nothing
    ensures Performed(before, ref, emits, m, before, ref, emits)
  {
  }

  lemma AddDecides(latest: State, ref: State, newId: Id)
    ensures var i := DraftIndex(latest.profiles);
            EffectOf(latest, ref, AddSsh(newId)) ==
            if i == |latest.profiles| then
              Write(State(newId, latest.profiles + [Ssh(newId, "", "", EMPTY_RUNNER, true, None)], latest.open + [newId]))
            else if latest.profiles[i].id == latest.active && latest.profiles[i].id in latest.open then Adopt
            else Write(latest.(active := latest.profiles[i].id, open := Opened(latest.open, latest.profiles[i].id)))
  {
  }

  lemma ApplyDecides(latest: State, ref: State, runner: Runner, host: string, clientTty: string)
    ensures EffectOf(latest, ref, Apply(runner, host, clientTty)) ==
            if Refused(latest, ref.active, host) then Adopt
            else Write(latest.(profiles := UpdateById(latest.profiles, ref.active, runner, host, clientTty)))
  {
  }

  lemma DeleteDecides(latest: State, ref: State)
    requires ref.profiles != []
    ensures EffectOf(latest, ref, DeleteActive) ==
            if ActiveProfile(ref).Local? then Nothing
            else Write(Normalize(AfterDelete(latest, ActiveProfile(ref).id), EMPTY_RUNNER))
  {
  }

  class Profiles {
    const bridge: PrefsBridge
    var state: State

    constructor (bridge: PrefsBridge)
      ensures this.bridge == bridge && state == Latest(bridge.Contents())
    {
      this.bridge := bridge;
      state := DefaultState(EMPTY_RUNNER);
      new;
      state := bridge.Load();
    }

    method Commit(next: State)
      modifies this, bridge
      ensures state == next && bridge.Contents() == Stored(old(bridge.Contents()), next)
      ensures bridge.emits == old(bridge.emits) + 1
    {
      bridge.Store(next);
      state := next;
    }

    method Reload()
      modifies this
      ensures state == Latest(bridge.Contents())
    {
      var reloaded := bridge.Load();
      if state != reloaded {
        state := reloaded;
      }
    }

    method SelectProfile(id: Id)
      modifies this, bridge
      ensures Performed(old(bridge.Contents()), old(state), old(bridge.emits), Select(id),
                        bridge.Contents(), state, bridge.emits)
    {
      var latest := bridge.Load();
      if id == latest.active {
        if state != latest {
          state := latest;
        }
        return;
      }
      var i := IndexOf(latest.profiles, id);
      if i == |latest.profiles| || !Runnable(latest.profiles[i]) {
        return;
      }
      Commit(latest.(active := id));
    }

    method AddSshProfile(newId: Id)
      modifies this, bridge
      ensures Performed(old(bridge.Contents()), old(state), old(bridge.emits), AddSsh(newId),
                        bridge.Contents(), state, bridge.emits)
    {
      var latest := bridge.Load();
      ghost var before := bridge.Contents();
      AddDecides(latest, state, newId);
      var i := DraftIndex(latest.profiles);
      if i < |latest.profiles| {
        var draft := latest.profiles[i].id;
        var open := latest.open;
        if draft !in latest.open {
          open := open + [draft];
        }
        if draft != latest.active || |open| != |latest.open| {
          Wrote(before, state, bridge.emits, AddSsh(newId), latest.(active := draft, open := open));
          Commit(latest.(active := draft, open := open));
          return;
        }
        Adopted(before, state, bridge.emits, AddSsh(newId));
        if state != latest {
          state := latest;
        }
        return;
      }
      var added := Ssh(newId, "", "", EMPTY_RUNNER, true, None);
      Wrote(before, state, bridge.emits, AddSsh(newId), State(newId, latest.profiles + [added], latest.open + [newId]));
      Commit(State(newId, latest.profiles + [added], latest.open + [newId]));
    }

    method DeleteActiveProfile()
      requires state.profiles != []
      modifies this, bridge
      ensures Performed(old(bridge.Contents()), old(state), old(bridge.emits), DeleteActive,
                        bridge.Contents(), state, bridge.emits)
    {
      var active := ActiveProfile(state);
      if active.Local? {
        LeftAlone(bridge.Contents(), state, bridge.emits, DeleteActive);
        return;
      }
      var latest := bridge.Load();
      var next := NormalizeProfileState(AfterDelete(latest, active.id), EMPTY_RUNNER);
      DeleteDecides(latest, state);
      Wrote(bridge.Contents(), state, bridge.emits, DeleteActive, next);
      Commit(next);
    }

    method ToggleProfileOpen(id: Id)
      modifies this, bridge
      ensures Performed(old(bridge.Contents()), old(state), old(bridge.emits), Toggle(id),
                        bridge.Contents(), state, bridge.emits)
    {
      var latest := bridge.Load();
      var next := ToggleOpen(latest, id);
      if next == latest {
        LeftAlone(bridge.Contents(), state, bridge.emits, Toggle(id));
      } else {
        Wrote(bridge.Contents(), state, bridge.emits, Toggle(id), next);
        Commit(next);
      }
    }

    method ReorderProfiles(id: Id, target: Id)
      modifies this, bridge
      ensures Performed(old(bridge.Contents()), old(state), old(bridge.emits), Reorder(id, target),
                        bridge.Contents(), state, bridge.emits)
    {
      var latest := bridge.Load();
      var next := ReorderProfile(latest, id, target);
      if next == latest {
        LeftAlone(bridge.Contents(), state, bridge.emits, Reorder(id, target));
      } else {
        Wrote(bridge.Contents(), state, bridge.emits, Reorder(id, target), next);
        Commit(next);
      }
    }

    method SetProfileEnabled(id: Id, enabled: bool)
      modifies this, bridge
      ensures Performed(old(bridge.Contents()), old(state), old(bridge.emits), Enable(id, enabled),
                        bridge.Contents(), state, bridge.emits)
    {
      var latest := bridge.Load();
      match EnabledEdit(latest, id, enabled)
      case None =>
        LeftAlone(bridge.Contents(), state, bridge.emits, Enable(id, enabled));
      case Some(edited) =>
        var next := NormalizeProfileState(AsPersisted(edited), EMPTY_RUNNER);
        Wrote(bridge.Contents(), state, bridge.emits, Enable(id, enabled), next);
        Commit(next);
    }

    method RecordProbedHost(id: Id, host: string, key: RunnerKey)
      modifies this, bridge
      ensures Performed(old(bridge.Contents()), old(state), old(bridge.emits), RecordProbe(id, host, key),
                        bridge.Contents(), state, bridge.emits)
    {
      var latest := bridge.Load();
      var next := RecordProbed(latest, id, host, key);
      if next == latest {
        LeftAlone(bridge.Contents(), state, bridge.emits, RecordProbe(id, host, key));
      } else {
        Wrote(bridge.Contents(), state, bridge.emits, RecordProbe(id, host, key), next);
        Commit(next);
      }
    }

    /** Edits the profile this window's form shows. Refuses, and takes over what
        storage holds, if another source has the host by now. */
    method ApplyRunnerSettings(runner: Runner, host: string, clientTty: string) returns (applied: bool)
      modifies this, bridge
      ensures Performed(old(bridge.Contents()), old(state), old(bridge.emits), Apply(runner, host, clientTty),
                        bridge.Contents(), state, bridge.emits)
      ensures applied <==> !Refused(Latest(old(bridge.Contents())), old(state).active, host)
    {
      var edited := state.active;
      var latest := bridge.Load();
      ghost var before := bridge.Contents();
      ApplyDecides(latest, state, runner, host, clientTty);
      var refused := Refuses(latest, edited, host);
      if refused {
        Adopted(before, state, bridge.emits, Apply(runner, host, clientTty));
        Reload();
        return false;
      }
      var next := latest.(profiles := UpdateById(latest.profiles, edited, runner, host, clientTty));
      Wrote(before, state, bridge.emits, Apply(runner, host, clientTty), next);
      Commit(next);
      return true;
    }
  }
}
