/**
 What normalising guarantees (desktop/src/effect/profileModel.ts:137-219): the
 shape of its output, that it is a fixpoint exactly there, and that no connection,
 selection or open folder is lost on the way.
 */
module ProfileLaws {
  import opened Options
  import opened ProfileModel

  predicate DistinctIds(ps: seq<Profile>) {
    forall i, j :: 0 <= i < j < |ps| ==> ps[i].id != ps[j].id
  }

  predicate DistinctHosts(ps: seq<Profile>) {
    forall i, j :: 0 <= i < j < |ps| && ps[i].Ssh? && ps[j].Ssh? ==> ps[i].host != ps[j].host
  }

  predicate DistinctSeq(ids: seq<Id>) {
    forall i, j :: 0 <= i < j < |ids| ==> ids[i] != ids[j]
  }

  /** Nothing is called "local" where an implicit local profile would be added. */
  ghost predicate LocalIsFree(ps: seq<Profile>) {
    HasLocal(ps) || forall p :: p in ps ==> p.id != LOCAL_PROFILE_ID
  }

  ghost predicate Normal(s: State) {
    && DistinctIds(s.profiles) && DistinctHosts(s.profiles) && HasLocal(s.profiles)
    && RunnableId(s.profiles, s.active)
    && DistinctSeq(s.open) && forall id :: id in s.open ==> RunnableId(s.profiles, id)
  }

  /** A connection is an SSH host, or one local profile. */
  predicate SameConnection(p: Profile, q: Profile) {
    p == q || (p.Ssh? && q.Ssh? && p.host == q.host)
  }

  // ----- Groups, survivors and the remap -----

  lemma SameIdSameProfile(ps: seq<Profile>, p: Profile, q: Profile)
    requires DistinctIds(ps) && p in ps && q in ps && p.id == q.id
    ensures p == q
  {
  }

  lemma {:induction false} HostsAreTheGroups(ps: seq<Profile>, host: string)
    ensures host in Hosts(ps) <==> Group(ps, host) != []
    decreases |ps|
  {
    if ps != [] {
      HostsAreTheGroups(ps[..|ps| - 1], host);
    }
  }

  ghost predicate Keeps(ps: seq<Profile>, host: string, id: Id) {
    var group := Group(ps, host);
    group != [] && Survivor(group).id == id
  }

  lemma {:induction false} SurvivorsHold(ps: seq<Profile>, hosts: seq<string>, host: string)
    requires host in hosts && Group(ps, host) != []
    ensures Survivor(Group(ps, host)).id in Survivors(ps, hosts)
    decreases |hosts|
  {
    var n := |hosts| - 1;
    if host != hosts[n] {
      SurvivorsHold(ps, hosts[..n], host);
    }
  }

  lemma {:induction false} SurvivorsComeFrom(ps: seq<Profile>, hosts: seq<string>, id: Id) returns (host: string)
    requires id in Survivors(ps, hosts)
    ensures host in hosts && Keeps(ps, host, id)
    decreases |hosts|
  {
    var n := |hosts| - 1;
    if id in Survivors(ps, hosts[..n]) {
      host := SurvivorsComeFrom(ps, hosts[..n], id);
    } else {
      host := hosts[n];
    }
  }

  /** The profile standing for p's connection after deduplication. */
  function Keeper(ps: seq<Profile>, p: Profile): (q: Profile)
    requires p in ps
    ensures q in ps && SameConnection(p, q)
  {
    if p.Local? then p
    else
      assert p in Group(ps, p.host);
      Survivor(Group(ps, p.host))
  }

  lemma KeepersSurvive(ps: seq<Profile>, p: Profile)
    requires DistinctIds(ps) && p in ps
    ensures p in Kept(ps, Survivors(ps, Hosts(ps))) <==> p == Keeper(ps, p)
  {
    if p.Ssh? {
      assert p in Group(ps, p.host);
      HostsAreTheGroups(ps, p.host);
      SurvivorsHold(ps, Hosts(ps), p.host);
      if p.id in Survivors(ps, Hosts(ps)) {
        var host := SurvivorsComeFrom(ps, Hosts(ps), p.id);
        SameIdSameProfile(ps, p, Survivor(Group(ps, host)));
      }
    }
  }

  lemma KeeperIsRunnable(ps: seq<Profile>, p: Profile)
    requires p in ps
    ensures Runnable(Keeper(ps, p)) <==> exists q :: q in ps && SameConnection(p, q) && Runnable(q)
  {
    if p.Ssh? {
      var group := Group(ps, p.host);
      if q :| q in ps && SameConnection(p, q) && Runnable(q) {
        assert q in group;
      }
    }
  }

  ghost predicate NamesSome(group: seq<Profile>, id: Id) {
    exists p :: p in group && Names(p, id)
  }

  lemma {:induction false} RemapGroupIs(remap: map<Id, Id>, group: seq<Profile>, survivor: Id, id: Id)
    ensures var after := RemapGroup(remap, group, survivor);
            if NamesSome(group, id) && id != survivor then id in after && after[id] == survivor
            else Mapped(after, id) == Mapped(remap, id)
    decreases |group|
  {
    if group != [] {
      var n := |group| - 1;
      RemapGroupIs(remap, group[..n], survivor, id);
      assert group == group[..n] + [group[n]];
      assert NamesSome(group, id) <==> NamesSome(group[..n], id) || Names(group[n], id);
    }
  }

  lemma {:induction false} RemapLeavesOthers(ps: seq<Profile>, hosts: seq<string>, id: Id)
    requires forall p :: p in ps && p.Ssh? && p.host in hosts ==> p.id != id
    ensures Mapped(Remap(ps, hosts), id) == id
    decreases |hosts|
  {
    if hosts != [] {
      var n := |hosts| - 1;
      RemapLeavesOthers(ps, hosts[..n], id);
      var group := Group(ps, hosts[n]);
      if group != [] {
        RemapGroupIs(Remap(ps, hosts[..n]), group, Survivor(group).id, id);
      }
    }
  }

  lemma {:induction false} RemapIsKeeper(ps: seq<Profile>, hosts: seq<string>, p: Profile)
    requires DistinctIds(ps) && p in ps && p.Ssh?
    ensures Mapped(Remap(ps, hosts), p.id) == if p.host in hosts then Keeper(ps, p).id else p.id
    decreases |hosts|
  {
    if hosts != [] {
      var n := |hosts| - 1;
      RemapIsKeeper(ps, hosts[..n], p);
      LastOrBefore(hosts, p.host);
      assert p in Group(ps, p.host);
      if Group(ps, hosts[n]) != [] {
        RemapOneGroup(ps, Remap(ps, hosts[..n]), hosts[n], p);
      }
    }
  }

  lemma LastOrBefore(hosts: seq<string>, host: string)
    requires hosts != []
    ensures host in hosts <==> host in hosts[..|hosts| - 1] || host == hosts[|hosts| - 1]
  {
    assert hosts == hosts[..|hosts| - 1] + [hosts[|hosts| - 1]];
  }

  lemma RemapOneGroup(ps: seq<Profile>, remap: map<Id, Id>, host: string, p: Profile)
    requires DistinctIds(ps) && p in ps && p.Ssh? && Group(ps, host) != []
    requires p.host == host ==> Mapped(remap, p.id) in {p.id, Keeper(ps, p).id}
    ensures Mapped(RemapGroup(remap, Group(ps, host), Survivor(Group(ps, host)).id), p.id)
            == if p.host == host then Keeper(ps, p).id else Mapped(remap, p.id)
  {
    var group := Group(ps, host);
    RemapGroupIs(remap, group, Survivor(group).id, p.id);
    if p.host == host {
      assert p in group && Names(p, p.id);
    } else {
      forall q | q in group
        ensures !Names(q, p.id)
      {
        if q.id == p.id {
          SameIdSameProfile(ps, p, q);
        }
      }
    }
  }

  /** A reference to any profile is taken to the profile that keeps its connection. */
  lemma ReferencesFollowConnections(ps: seq<Profile>, p: Profile)
    requires DistinctIds(ps) && p in ps
    ensures Mapped(Remap(ps, Hosts(ps)), p.id) == Keeper(ps, p).id
  {
    if p.Ssh? {
      assert p in Group(ps, p.host);
      HostsAreTheGroups(ps, p.host);
      RemapIsKeeper(ps, Hosts(ps), p);
    } else {
      forall q | q in ps && q.Ssh? && q.host in Hosts(ps)
        ensures q.id != p.id
      {
        if q.id == p.id {
          SameIdSameProfile(ps, p, q);
        }
      }
      RemapLeavesOthers(ps, Hosts(ps), p.id);
    }
  }

  /** A reference to no profile stays what it is. */
  lemma UnknownReferencesStay(ps: seq<Profile>, id: Id)
    requires forall p :: p in ps ==> p.id != id
    ensures Mapped(Remap(ps, Hosts(ps)), id) == id
  {
    RemapLeavesOthers(ps, Hosts(ps), id);
  }

  // ----- The shape of the output -----

  lemma {:induction false} KeptDistinct(ps: seq<Profile>, survivors: set<Id>)
    requires DistinctIds(ps)
    ensures DistinctIds(Kept(ps, survivors))
    decreases |ps|
  {
    if ps != [] {
      var n := |ps| - 1;
      KeptDistinct(ps[..n], survivors);
      var before := Kept(ps[..n], survivors);
      forall i | 0 <= i < |before|
        ensures before[i].id != ps[n].id
      {
        assert before[i] in ps[..n];
      }
    }
  }

  lemma KeptHostsAreDistinct(ps: seq<Profile>)
    requires DistinctIds(ps)
    ensures DistinctHosts(Kept(ps, Survivors(ps, Hosts(ps))))
  {
    var kept := Kept(ps, Survivors(ps, Hosts(ps)));
    KeptDistinct(ps, Survivors(ps, Hosts(ps)));
    forall p, q | p in kept && q in kept && p.Ssh? && q.Ssh? && p.host == q.host
      ensures p == q
    {
      KeepersSurvive(ps, p);
      KeepersSurvive(ps, q);
      SameHostSameKeeper(ps, p, q);
    }
    OneEachMeansDistinct(kept);
  }

  lemma OneEachMeansDistinct(kept: seq<Profile>)
    requires DistinctIds(kept)
    requires forall p, q :: p in kept && q in kept && p.Ssh? && q.Ssh? && p.host == q.host ==> p == q
    ensures DistinctHosts(kept)
  {
  }

  lemma SameHostSameKeeper(ps: seq<Profile>, p: Profile, q: Profile)
    requires p in ps && q in ps && SameConnection(p, q)
    ensures Keeper(ps, p) == Keeper(ps, q)
  {
  }

  lemma NormalProfilesAreDistinct(ps: seq<Profile>, fallback: Runner)
    requires DistinctIds(ps) && LocalIsFree(ps)
    ensures DistinctIds(NormalProfiles(ps, fallback)) && DistinctHosts(NormalProfiles(ps, fallback))
  {
    var survivors := Survivors(ps, Hosts(ps));
    KeptDistinct(ps, survivors);
    KeptHostsAreDistinct(ps);
    KeptLocals(ps, survivors);
    if !HasLocal(ps) {
      LocalInFront(Kept(ps, survivors), fallback);
    }
  }

  lemma LocalInFront(kept: seq<Profile>, fallback: Runner)
    requires DistinctIds(kept) && DistinctHosts(kept)
    requires forall p :: p in kept ==> p.id != LOCAL_PROFILE_ID
    ensures DistinctIds([Local(LOCAL_PROFILE_ID, fallback)] + kept)
    ensures DistinctHosts([Local(LOCAL_PROFILE_ID, fallback)] + kept)
  {
  }

  lemma {:induction false} OpenIdsShape(ids: seq<Id>, remap: map<Id, Id>, ps: seq<Profile>, id: Id)
    ensures DistinctSeq(OpenIds(ids, remap, ps))
    ensures id in OpenIds(ids, remap, ps) <==> RunnableId(ps, id) && exists from :: from in ids && Mapped(remap, from) == id
    decreases |ids|
  {
    if ids != [] {
      var n := |ids| - 1;
      OpenIdsShape(ids[..n], remap, ps, id);
      assert ids == ids[..n] + [ids[n]];
    }
  }

  predicate Stays(p: Profile, survivors: set<Id>) {
    p.Local? || p.id in survivors
  }

  /** The ids of the SSH profiles that survive are, for each host, that of its first
      enabled profile, or else of its first. */
  lemma SurvivingIdsAre(ps: seq<Profile>, id: Id)
    ensures id in Survivors(ps, Hosts(ps)) <==> exists p :: p in ps && p.Ssh? && Keeper(ps, p).id == id
  {
    if p :| p in ps && p.Ssh? && Keeper(ps, p).id == id {
      assert p in Group(ps, p.host);
      HostsAreTheGroups(ps, p.host);
      SurvivorsHold(ps, Hosts(ps), p.host);
    }
    if id in Survivors(ps, Hosts(ps)) {
      var host := SurvivorsComeFrom(ps, Hosts(ps), id);
      var p := Survivor(Group(ps, host));
      assert p in ps && p.Ssh? && Keeper(ps, p).id == id;
    }
  }

  ghost predicate IdsKeptOnce(ps: seq<Profile>, survivors: set<Id>) {
    forall i, j :: 0 <= i < j < |ps| && Stays(ps[i], survivors) && Stays(ps[j], survivors) ==> ps[i].id != ps[j].id
  }

  ghost predicate HostsKeptOnce(ps: seq<Profile>, survivors: set<Id>) {
    forall i, j :: 0 <= i < j < |ps| && ps[i].Ssh? && ps[j].Ssh? && ps[i].id in survivors && ps[j].id in survivors ==>
                     ps[i].host != ps[j].host
  }

  lemma {:induction false} KeptIdsIff(ps: seq<Profile>, survivors: set<Id>)
    ensures DistinctIds(Kept(ps, survivors)) <==> IdsKeptOnce(ps, survivors)
    decreases |ps|
  {
    if ps != [] {
      var n := |ps| - 1;
      KeptIdsIff(ps[..n], survivors);
      assert ps == ps[..n] + [ps[n]];
      OneMoreKeptId(ps[..n], ps[n], Kept(ps[..n], survivors), survivors);
    }
  }

  lemma OneMoreKeptId(ps: seq<Profile>, p: Profile, kept: seq<Profile>, survivors: set<Id>)
    requires forall q :: q in kept <==> q in ps && Stays(q, survivors)
    requires DistinctIds(kept) <==> IdsKeptOnce(ps, survivors)
    ensures DistinctIds(if Stays(p, survivors) then kept + [p] else kept) <==> IdsKeptOnce(ps + [p], survivors)
  {
    DistinctIdsSnoc(kept, p);
    IdsKeptOnceSnoc(ps, p, survivors);
  }

  lemma DistinctIdsSnoc(ps: seq<Profile>, p: Profile)
    ensures DistinctIds(ps + [p]) <==> DistinctIds(ps) && forall q :: q in ps ==> q.id != p.id
  {
    var after := ps + [p];
    if DistinctIds(after) {
      assert after[|ps|] == p;
      assert forall i :: 0 <= i < |ps| ==> after[i] == ps[i];
    }
  }

  lemma IdsKeptOnceSnoc(ps: seq<Profile>, p: Profile, survivors: set<Id>)
    ensures IdsKeptOnce(ps + [p], survivors) <==>
            IdsKeptOnce(ps, survivors)
            && (Stays(p, survivors) ==> forall q :: q in ps && Stays(q, survivors) ==> q.id != p.id)
  {
    var after := ps + [p];
    assert after[|ps|] == p && forall i :: 0 <= i < |ps| ==> after[i] == ps[i];
  }

  lemma {:induction false} KeptHostsIff(ps: seq<Profile>, survivors: set<Id>)
    ensures DistinctHosts(Kept(ps, survivors)) <==> HostsKeptOnce(ps, survivors)
    decreases |ps|
  {
    if ps != [] {
      var n := |ps| - 1;
      KeptHostsIff(ps[..n], survivors);
      assert ps == ps[..n] + [ps[n]];
      OneMoreKeptHost(ps[..n], ps[n], Kept(ps[..n], survivors), survivors);
    }
  }

  lemma OneMoreKeptHost(ps: seq<Profile>, p: Profile, kept: seq<Profile>, survivors: set<Id>)
    requires forall q :: q in kept <==> q in ps && Stays(q, survivors)
    requires DistinctHosts(kept) <==> HostsKeptOnce(ps, survivors)
    ensures DistinctHosts(if Stays(p, survivors) then kept + [p] else kept) <==> HostsKeptOnce(ps + [p], survivors)
  {
    DistinctHostsSnoc(kept, p);
    HostsKeptOnceSnoc(ps, p, survivors);
  }

  lemma DistinctHostsSnoc(ps: seq<Profile>, p: Profile)
    ensures DistinctHosts(ps + [p]) <==>
            DistinctHosts(ps) && (p.Ssh? ==> forall q :: q in ps && q.Ssh? ==> q.host != p.host)
  {
    var after := ps + [p];
    assert after[|ps|] == p && forall i :: 0 <= i < |ps| ==> after[i] == ps[i];
  }

  lemma HostsKeptOnceSnoc(ps: seq<Profile>, p: Profile, survivors: set<Id>)
    ensures HostsKeptOnce(ps + [p], survivors) <==>
            HostsKeptOnce(ps, survivors)
            && (p.Ssh? && p.id in survivors ==>
                  forall q :: q in ps && q.Ssh? && q.id in survivors ==> q.host != p.host)
  {
    var after := ps + [p];
    assert after[|ps|] == p && forall i :: 0 <= i < |ps| ==> after[i] == ps[i];
  }

  /** What the input must be like: no two profiles that stay share an id or, being SSH,
      a host, and where an implicit local profile is added, no profile called "local"
      stays. */
  ghost predicate Tidy(ps: seq<Profile>) {
    var survivors := Survivors(ps, Hosts(ps));
    IdsKeptOnce(ps, survivors) && HostsKeptOnce(ps, survivors) && (HasLocal(ps) || LOCAL_PROFILE_ID !in survivors)
  }

  lemma LocalInFrontIds(kept: seq<Profile>, fallback: Runner)
    ensures DistinctIds([Local(LOCAL_PROFILE_ID, fallback)] + kept) <==>
            DistinctIds(kept) && forall p :: p in kept ==> p.id != LOCAL_PROFILE_ID
  {
    var after := [Local(LOCAL_PROFILE_ID, fallback)] + kept;
    if DistinctIds(after) {
      forall i | 0 <= i < |kept|
        ensures kept[i].id != LOCAL_PROFILE_ID
      {
        assert after[0] == Local(LOCAL_PROFILE_ID, fallback) && after[i + 1] == kept[i];
      }
      forall i, j | 0 <= i < j < |kept|
        ensures kept[i].id != kept[j].id
      {
        assert after[i + 1] == kept[i] && after[j + 1] == kept[j];
      }
    }
  }

  lemma LocalInFrontHosts(kept: seq<Profile>, fallback: Runner)
    ensures DistinctHosts([Local(LOCAL_PROFILE_ID, fallback)] + kept) <==> DistinctHosts(kept)
  {
    var after := [Local(LOCAL_PROFILE_ID, fallback)] + kept;
    if DistinctHosts(after) {
      forall i, j | 0 <= i < j < |kept| && kept[i].Ssh? && kept[j].Ssh?
        ensures kept[i].host != kept[j].host
      {
        assert after[i + 1] == kept[i] && after[j + 1] == kept[j];
      }
    }
  }

  lemma SomeoneStaysAs(ps: seq<Profile>, id: Id)
    requires id in Survivors(ps, Hosts(ps))
    ensures exists p :: p in Kept(ps, Survivors(ps, Hosts(ps))) && p.id == id
  {
    SurvivingIdsAre(ps, id);
    var p :| p in ps && p.Ssh? && Keeper(ps, p).id == id;
    assert Keeper(ps, p) in Kept(ps, Survivors(ps, Hosts(ps)));
  }

  /** On every input, profiles that share ids included: the surviving hosts are distinct
      exactly if no host has two profiles whose ids survive. */
  lemma HostsAreDistinctIff(ps: seq<Profile>, fallback: Runner)
    ensures DistinctHosts(NormalProfiles(ps, fallback)) <==> HostsKeptOnce(ps, Survivors(ps, Hosts(ps)))
  {
    var kept := Kept(ps, Survivors(ps, Hosts(ps)));
    KeptHostsIff(ps, Survivors(ps, Hosts(ps)));
    LocalInFrontHosts(kept, fallback);
  }

  lemma IdsAreDistinctIff(ps: seq<Profile>, fallback: Runner)
    ensures DistinctIds(NormalProfiles(ps, fallback)) <==>
            IdsKeptOnce(ps, Survivors(ps, Hosts(ps))) && (HasLocal(ps) || LOCAL_PROFILE_ID !in Survivors(ps, Hosts(ps)))
  {
    var survivors := Survivors(ps, Hosts(ps));
    KeptIdsIff(ps, survivors);
    KeptLocals(ps, survivors);
    LocalInFrontIds(Kept(ps, survivors), fallback);
    if LOCAL_PROFILE_ID in survivors {
      SomeoneStaysAs(ps, LOCAL_PROFILE_ID);
    }
  }

  /** The output has the promised shape exactly if the input is tidy. */
  lemma NormalizeIsNormalIff(p: Persisted, fallback: Runner)
    ensures Normal(Normalize(p, fallback)) <==> Tidy(p.profiles)
  {
    HostsAreDistinctIff(p.profiles, fallback);
    IdsAreDistinctIff(p.profiles, fallback);
    SelectionIsListed(p, fallback);
  }

  /** Whatever the input, the selection and the open list refer to runnable survivors. */
  lemma SelectionIsListed(p: Persisted, fallback: Runner)
    ensures var s := Normalize(p, fallback);
            HasLocal(s.profiles) && RunnableId(s.profiles, s.active)
            && DistinctSeq(s.open) && forall id :: id in s.open ==> RunnableId(s.profiles, id)
  {
    NormalProfilesNonempty(p.profiles, fallback);
    var s := Normalize(p, fallback);
    ActiveIsRunnable(p.active, Remap(p.profiles, Hosts(p.profiles)), s.profiles);
    forall id
      ensures DistinctSeq(s.open)
      ensures id in s.open ==> RunnableId(s.profiles, id)
    {
      if p.open.Some? {
        OpenIdsShape(p.open.value, Remap(p.profiles, Hosts(p.profiles)), s.profiles, id);
      } else {
        OpenIdsShape([s.active], map[], s.profiles, id);
      }
    }
    assert DistinctSeq(s.open) by {
      OpenIdsShape(if p.open.Some? then p.open.value else [s.active],
                   if p.open.Some? then Remap(p.profiles, Hosts(p.profiles)) else map[], s.profiles, "");
    }
  }

  /** Distinct ids, with nothing called "local" in an implicit local profile's way, are
      enough. */
  lemma NormalizeIsNormal(p: Persisted, fallback: Runner)
    requires DistinctIds(p.profiles) && LocalIsFree(p.profiles)
    ensures Normal(Normalize(p, fallback))
  {
    NormalProfilesAreDistinct(p.profiles, fallback);
    SelectionIsListed(p, fallback);
  }

  lemma ActiveIsRunnable(requested: Option<Id>, remap: map<Id, Id>, ps: seq<Profile>)
    requires ps != [] && HasLocal(ps)
    ensures RunnableId(ps, ActiveId(requested, remap, ps))
  {
    var local :| local in ps && local.Local?;
    var i := FirstRunnable(ps);
    assert i < |ps|;
    assert Names(ps[i], ps[i].id);
  }

  // ----- Fixpoints -----

  lemma {:induction false} KeptAll(ps: seq<Profile>, survivors: set<Id>)
    requires forall p :: p in ps && p.Ssh? ==> p.id in survivors
    ensures Kept(ps, survivors) == ps
    decreases |ps|
  {
    if ps != [] {
      KeptAll(ps[..|ps| - 1], survivors);
    }
  }

  lemma OnlyOneKeepsItself(ps: seq<Profile>, p: Profile)
    requires DistinctIds(ps) && DistinctHosts(ps) && p in ps
    ensures Keeper(ps, p) == p
  {
  }

  lemma {:induction false} OpenIdsAll(ids: seq<Id>, remap: map<Id, Id>, ps: seq<Profile>)
    requires DistinctSeq(ids)
    requires forall id :: id in ids ==> RunnableId(ps, id) && Mapped(remap, id) == id
    ensures OpenIds(ids, remap, ps) == ids
    decreases |ids|
  {
    if ids != [] {
      var n := |ids| - 1;
      assert ids == ids[..n] + [ids[n]];
      OpenIdsAll(ids[..n], remap, ps);
    }
  }

  lemma NormalStatesStay(s: State, fallback: Runner)
    requires Normal(s)
    ensures Normalize(AsPersisted(s), fallback) == s
  {
    var ps := s.profiles;
    var remap := Remap(ps, Hosts(ps));
    forall p | p in ps
      ensures p in Kept(ps, Survivors(ps, Hosts(ps)))
    {
      OnlyOneKeepsItself(ps, p);
      KeepersSurvive(ps, p);
    }
    KeptAll(ps, Survivors(ps, Hosts(ps)));
    forall id | RunnableId(ps, id)
      ensures Mapped(remap, id) == id
    {
      var p :| p in ps && Names(p, id) && Runnable(p);
      OnlyOneKeepsItself(ps, p);
      ReferencesFollowConnections(ps, p);
    }
    OpenIdsAll(s.open, remap, ps);
  }

  /** For distinct ids, a stored state is read back unchanged exactly when it has
      the promised shape. */
  lemma UnchangedIffNormal(s: State, fallback: Runner)
    requires DistinctIds(s.profiles)
    ensures Normalize(AsPersisted(s), fallback) == s <==> Normal(s)
  {
    if Normal(s) {
      NormalStatesStay(s, fallback);
    }
    if Normalize(AsPersisted(s), fallback) == s {
      NormalProfilesNonempty(s.profiles, fallback);
      NormalizeIsNormal(AsPersisted(s), fallback);
    }
  }

  lemma NormalizeTwiceIsOnce(p: Persisted, fallback: Runner, later: Runner)
    requires Tidy(p.profiles)
    ensures Normalize(AsPersisted(Normalize(p, fallback)), later) == Normalize(p, fallback)
  {
    NormalizeIsNormalIff(p, fallback);
    NormalStatesStay(Normalize(p, fallback), later);
  }

  // ----- Nothing is lost -----

  /** `part` is `whole` with some elements left out. */
  ghost predicate InOrder(part: seq<Profile>, whole: seq<Profile>) {
    part == []
    || (whole != []
        && ((part[|part| - 1] == whole[|whole| - 1] && InOrder(part[..|part| - 1], whole[..|whole| - 1]))
            || InOrder(part, whole[..|whole| - 1])))
  }

  lemma {:induction false} KeptInOrder(ps: seq<Profile>, survivors: set<Id>)
    ensures InOrder(Kept(ps, survivors), ps)
    decreases |ps|
  {
    if ps != [] {
      var n := |ps| - 1;
      KeptInOrder(ps[..n], survivors);
      var kept, before := Kept(ps, survivors), Kept(ps[..n], survivors);
      if kept != before {
        assert kept[..|kept| - 1] == before;
      }
    }
  }

  /** On every input each connection survives as one of its own profiles, enabled exactly
      if some duplicate was, and as no other if no host has two profiles whose ids
      survive; the survivors keep their order, after an implicit local profile if there
      was none. */
  lemma NoConnectionIsLost(ps: seq<Profile>, fallback: Runner, p: Profile)
    requires p in ps
    ensures var kept := NormalProfiles(ps, fallback);
            && Keeper(ps, p) in kept
            && (HostsKeptOnce(ps, Survivors(ps, Hosts(ps))) ==>
                  forall q :: q in kept && SameConnection(p, q) ==> q == Keeper(ps, p))
            && (Runnable(Keeper(ps, p)) <==> exists q :: q in ps && SameConnection(p, q) && Runnable(q))
            && (if HasLocal(ps) then InOrder(kept, ps)
                else kept[0] == Local(LOCAL_PROFILE_ID, fallback) && InOrder(kept[1..], ps))
  {
    KeeperIsKept(ps, fallback, p);
    KeeperIsRunnable(ps, p);
    KeptOrder(ps, fallback);
    if HostsKeptOnce(ps, Survivors(ps, Hosts(ps))) {
      KeeperIsKeptAlone(ps, fallback, p);
    }
  }

  lemma DistinctIdsKeepHostsOnce(ps: seq<Profile>)
    requires DistinctIds(ps)
    ensures HostsKeptOnce(ps, Survivors(ps, Hosts(ps)))
  {
    KeptHostsAreDistinct(ps);
    KeptHostsIff(ps, Survivors(ps, Hosts(ps)));
  }

  lemma KeptOrder(ps: seq<Profile>, fallback: Runner)
    ensures var kept := NormalProfiles(ps, fallback);
            if HasLocal(ps) then InOrder(kept, ps)
            else kept != [] && kept[0] == Local(LOCAL_PROFILE_ID, fallback) && InOrder(kept[1..], ps)
  {
    var survivors := Survivors(ps, Hosts(ps));
    KeptInOrder(ps, survivors);
    KeptLocals(ps, survivors);
    if !HasLocal(ps) {
      assert NormalProfiles(ps, fallback)[1..] == Kept(ps, survivors);
    }
  }

  lemma KeeperIsKept(ps: seq<Profile>, fallback: Runner, p: Profile)
    requires p in ps
    ensures Keeper(ps, p) in NormalProfiles(ps, fallback)
  {
    var q := Keeper(ps, p);
    SurvivingIdsAre(ps, q.id);
    assert q in Kept(ps, Survivors(ps, Hosts(ps)));
  }

  lemma KeeperIsKeptAlone(ps: seq<Profile>, fallback: Runner, p: Profile)
    requires p in ps && HostsKeptOnce(ps, Survivors(ps, Hosts(ps)))
    ensures forall q :: q in NormalProfiles(ps, fallback) && SameConnection(p, q) ==> q == Keeper(ps, p)
  {
    if p.Ssh? {
      HostsAreDistinctIff(ps, fallback);
      KeeperIsKept(ps, fallback, p);
      forall q | q in NormalProfiles(ps, fallback) && SameConnection(p, q)
        ensures q == Keeper(ps, p)
      {
        OneOfAHost(NormalProfiles(ps, fallback), q, Keeper(ps, p));
      }
    }
  }

  lemma OneOfAHost(ps: seq<Profile>, p: Profile, q: Profile)
    requires DistinctHosts(ps) && p in ps && q in ps && p.Ssh? && q.Ssh? && p.host == q.host
    ensures p == q
  {
  }

  lemma KeptLocals(ps: seq<Profile>, survivors: set<Id>)
    ensures HasLocal(Kept(ps, survivors)) <==> HasLocal(ps)
  {
    if p :| p in ps && p.Local? {
      assert p in Kept(ps, survivors);
    }
  }

  lemma KeepersKeepThemselves(ps: seq<Profile>, p: Profile)
    requires p in ps
    ensures Keeper(ps, Keeper(ps, p)) == Keeper(ps, p)
  {
  }

  // ----- Inputs that are not tidy -----

  lemma OneHostKeepsAll(ps: seq<Profile>, p: Profile)
    requires p.Ssh? && ps != [] && forall q :: q in ps ==> q.Ssh? && q.host == p.host && q.id == p.id
    ensures p.id in Survivors(ps, Hosts(ps)) && Kept(ps, Survivors(ps, Hosts(ps))) == ps
  {
    SurvivingIdsAre(ps, p.id);
    assert ps[0] in ps && Keeper(ps, ps[0]) in ps;
    KeptAll(ps, Survivors(ps, Hosts(ps)));
  }

  /** Two profiles of one host that share an id both stay. */
  lemma SharedIdsKeepDuplicates(runner: Runner, fallback: Runner)
    ensures var p := Ssh("ssh-1", "box", "", runner, true, None);
            var q := Ssh("ssh-1", "box", "", runner, false, None);
            !Tidy([p, q]) && !DistinctHosts(Normalize(Persisted(None, [p, q], None), fallback).profiles)
  {
    var p := Ssh("ssh-1", "box", "", runner, true, None);
    var q := Ssh("ssh-1", "box", "", runner, false, None);
    var ps := [p, q];
    OneHostKeepsAll(ps, p);
    assert ps[0] == p && ps[1] == q;
    HostsAreDistinctIff(ps, fallback);
  }

  /** An SSH profile called "local" where there is no local profile ends up beside an
      implicit local profile of the same id. */
  lemma LocalNameClashes(runner: Runner, fallback: Runner)
    ensures var p := Ssh(LOCAL_PROFILE_ID, "box", "", runner, true, None);
            && DistinctIds([p]) && !Tidy([p])
            && Normalize(Persisted(None, [p], None), fallback).profiles == [Local(LOCAL_PROFILE_ID, fallback)] + [p]
  {
    var p := Ssh(LOCAL_PROFILE_ID, "box", "", runner, true, None);
    OneHostKeepsAll([p], p);
    NoLocalAddsOne([p], fallback);
    NotTidyWithLocalName([p]);
  }

  lemma NoLocalAddsOne(ps: seq<Profile>, fallback: Runner)
    requires !HasLocal(ps) && Kept(ps, Survivors(ps, Hosts(ps))) == ps
    ensures NormalProfiles(ps, fallback) == [Local(LOCAL_PROFILE_ID, fallback)] + ps
  {
  }

  lemma NotTidyWithLocalName(ps: seq<Profile>)
    requires !HasLocal(ps) && LOCAL_PROFILE_ID in Survivors(ps, Hosts(ps))
    ensures !Tidy(ps)
  {
  }
}
