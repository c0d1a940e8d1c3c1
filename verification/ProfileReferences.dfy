/**
 What the normaliser makes of the selected id and of the listed open ids
 (desktop/src/effect/profileModel.ts:156-216), on every input.
 */
module ProfileReferences {
  import opened Options
  import opened ProfileModel
  import opened ProfileLaws

  // ----- References that are sent on -----

  /** The id names a profile whose connection another id stands for. */
  ghost predicate SentOn(ps: seq<Profile>, id: Id) {
    exists p :: p in ps && p.Ssh? && Names(p, id) && Keeper(ps, p).id != id
  }

  ghost predicate SendsOn(ps: seq<Profile>, host: string, id: Id) {
    NamesSome(Group(ps, host), id) && !Keeps(ps, host, id)
  }

  lemma {:induction false} MovedIffNamed(ps: seq<Profile>, hosts: seq<string>, id: Id)
    ensures Mapped(Remap(ps, hosts), id) != id <==> exists host :: host in hosts && SendsOn(ps, host, id)
    decreases |hosts|
  {
    if hosts != [] {
      var n := |hosts| - 1;
      var (before, host) := (hosts[..n], hosts[n]);
      assert hosts == before + [host];
      MovedIffNamed(ps, before, id);
      assert (exists h :: h in hosts && SendsOn(ps, h, id)) <==>
             (exists h :: h in before && SendsOn(ps, h, id)) || SendsOn(ps, host, id);
      OneMoreSender(ps, Remap(ps, before), host, id);
    }
  }

  lemma MovedIffSentOn(ps: seq<Profile>, id: Id)
    ensures Mapped(Remap(ps, Hosts(ps)), id) != id <==> SentOn(ps, id)
  {
    MovedIffNamed(ps, Hosts(ps), id);
    if SentOn(ps, id) {
      var p :| p in ps && p.Ssh? && Names(p, id) && Keeper(ps, p).id != id;
      assert p in Group(ps, p.host);
      HostsAreTheGroups(ps, p.host);
      assert SendsOn(ps, p.host, id);
    }
    if host :| host in Hosts(ps) && SendsOn(ps, host, id) {
      var p :| p in Group(ps, host) && Names(p, id);
      assert Keeper(ps, p) == Survivor(Group(ps, host));
    }
  }

  /** Where a reference to this id ends up. */
  ghost function SentTo(ps: seq<Profile>, id: Id): Id {
    Mapped(Remap(ps, Hosts(ps)), id)
  }

  /** The last of these hosts for which the id names a superseded profile. */
  ghost function LastSender(ps: seq<Profile>, hosts: seq<string>, id: Id): (last: Option<string>)
    ensures last.Some? ==> last.value in hosts && SendsOn(ps, last.value, id)
  {
    if hosts == [] then None
    else if SendsOn(ps, hosts[|hosts| - 1], id) then Some(hosts[|hosts| - 1])
    else LastSender(ps, hosts[..|hosts| - 1], id)
  }

  ghost function SurvivingId(ps: seq<Profile>, host: string, id: Id): Id {
    if Group(ps, host) == [] then id else Survivor(Group(ps, host)).id
  }

  ghost function SentBy(ps: seq<Profile>, sender: Option<string>, id: Id): Id {
    if sender.Some? then SurvivingId(ps, sender.value, id) else id
  }

  lemma OneMoreSender(ps: seq<Profile>, remap: map<Id, Id>, host: string, id: Id)
    ensures var group := Group(ps, host);
            var after := if group == [] then remap else RemapGroup(remap, group, Survivor(group).id);
            Mapped(after, id) == if SendsOn(ps, host, id) then SurvivingId(ps, host, id) else Mapped(remap, id)
  {
    var group := Group(ps, host);
    if group != [] {
      RemapGroupIs(remap, group, Survivor(group).id, id);
    }
  }

  lemma {:induction false} LastSenderDecides(ps: seq<Profile>, hosts: seq<string>, id: Id)
    ensures Mapped(Remap(ps, hosts), id) == SentBy(ps, LastSender(ps, hosts, id), id)
    decreases |hosts|
  {
    if hosts != [] {
      var n := |hosts| - 1;
      LastSenderDecides(ps, hosts[..n], id);
      OneMoreSender(ps, Remap(ps, hosts[..n]), hosts[n], id);
    }
  }

  /** On every input: a reference stays unless its id names a superseded profile, and
      then it goes to whoever stands for that profile's host; if there are several, the
      host that appears last decides. */
  lemma SentToIs(ps: seq<Profile>, id: Id)
    ensures SentTo(ps, id) == SentBy(ps, LastSender(ps, Hosts(ps), id), id)
    ensures SentTo(ps, id) != id <==> SentOn(ps, id)
  {
    LastSenderDecides(ps, Hosts(ps), id);
    MovedIffSentOn(ps, id);
  }

  /** So it is sent on, if at all, to the keeper of a profile of that id. */
  lemma SenderIsAProfile(ps: seq<Profile>, id: Id) returns (p: Profile)
    requires SentTo(ps, id) != id
    ensures p in ps && Names(p, id) && SentTo(ps, id) == Keeper(ps, p).id
  {
    SentToIs(ps, id);
    var host := LastSender(ps, Hosts(ps), id).value;
    p :| p in Group(ps, host) && Names(p, id);
  }

  // ----- Selection and open folders, on every input -----

  /** A runnable profile of this id stays, or an implicit local profile takes it. */
  ghost predicate RunnableHere(ps: seq<Profile>, id: Id) {
    || (exists p :: p in ps && Names(p, id) && Runnable(p) && Stays(p, Survivors(ps, Hosts(ps))))
    || (!HasLocal(ps) && id == LOCAL_PROFILE_ID)
  }

  lemma RunnableAmongKept(ps: seq<Profile>, survivors: set<Id>, id: Id)
    ensures RunnableId(Kept(ps, survivors), id) <==>
            exists p :: p in ps && Names(p, id) && Runnable(p) && Stays(p, survivors)
  {
    var kept := Kept(ps, survivors);
    if p :| p in ps && Names(p, id) && Runnable(p) && Stays(p, survivors) {
      assert p in kept;
    }
  }

  lemma RunnableBehindLocal(kept: seq<Profile>, fallback: Runner, id: Id)
    ensures RunnableId([Local(LOCAL_PROFILE_ID, fallback)] + kept, id) <==> RunnableId(kept, id) || id == LOCAL_PROFILE_ID
  {
    var local := Local(LOCAL_PROFILE_ID, fallback);
    assert local in [local] + kept && Names(local, LOCAL_PROFILE_ID);
    if p :| p in kept && Names(p, id) && Runnable(p) {
      assert p in [local] + kept;
    }
  }

  lemma RunnableHereIff(ps: seq<Profile>, fallback: Runner, id: Id)
    ensures RunnableId(NormalProfiles(ps, fallback), id) <==> RunnableHere(ps, id)
  {
    var survivors := Survivors(ps, Hosts(ps));
    KeptLocals(ps, survivors);
    RunnableAmongKept(ps, survivors, id);
    RunnableBehindLocal(Kept(ps, survivors), fallback, id);
  }

  /** The source asked for, if it is runnable, else the first runnable one kept. */
  ghost function SelectedId(p: Persisted, fallback: Runner): Id {
    var kept := NormalProfiles(p.profiles, fallback);
    var i := FirstRunnable(kept);
    if p.active.Some? && RunnableHere(p.profiles, SentTo(p.profiles, p.active.value)) then SentTo(p.profiles, p.active.value)
    else if i < |kept| then kept[i].id
    else LOCAL_PROFILE_ID
  }

  lemma SelectedIdIsActive(p: Persisted, fallback: Runner)
    ensures Normalize(p, fallback).active == SelectedId(p, fallback)
  {
    var kept := NormalProfiles(p.profiles, fallback);
    NormalProfilesNonempty(p.profiles, fallback);
    var local :| local in kept && local.Local?;
    assert FirstRunnable(kept) < |kept|;
    if p.active.Some? {
      RunnableHereIff(p.profiles, fallback, SentTo(p.profiles, p.active.value));
    }
  }

  /** On every input a selection survives as what it is sent to exactly if that is
      runnable. */
  lemma SelectionSurvivesIff(p: Persisted, fallback: Runner)
    requires p.active.Some?
    ensures var to := SentTo(p.profiles, p.active.value);
            Normalize(p, fallback).active == to <==> RunnableHere(p.profiles, to)
  {
    var to := SentTo(p.profiles, p.active.value);
    SelectedIdIsActive(p, fallback);
    SelectionIsListed(p, fallback);
    RunnableHereIff(p.profiles, fallback, to);
  }

  /** Something listed is sent to this id; if there is no list, it is the selection. */
  ghost predicate Listed(p: Persisted, active: Id, id: Id) {
    match p.open
    case None => id == active
    case Some(ids) => exists from :: from in ids && SentTo(p.profiles, from) == id
  }

  /** On every input, with and without a list of open folders. */
  lemma OpenIffListed(p: Persisted, fallback: Runner, id: Id)
    ensures var s := Normalize(p, fallback);
            id in s.open <==> RunnableHere(p.profiles, id) && Listed(p, s.active, id)
  {
    var s := Normalize(p, fallback);
    RunnableHereIff(p.profiles, fallback, id);
    if p.open.Some? {
      OpenIdsShape(p.open.value, Remap(p.profiles, Hosts(p.profiles)), s.profiles, id);
    } else {
      OpenIdsShape([s.active], map[], s.profiles, id);
      assert Mapped(map[], s.active) == s.active;
    }
  }

  // ----- In terms of connections -----

  /** All profiles of this id are of one connection, and no implicit local profile
      takes the id as well. */
  ghost predicate NamesOne(ps: seq<Profile>, id: Id) {
    && (forall p, q :: p in ps && q in ps && p.id == id && q.id == id ==> SameConnection(p, q))
    && (id == LOCAL_PROFILE_ID && !HasLocal(ps) ==> forall p :: p in ps ==> p.id != id)
  }

  /** No id of this connection names another one as well. */
  ghost predicate Unshared(ps: seq<Profile>, p: Profile) {
    NamesOne(ps, p.id) && forall q :: q in ps && SameConnection(p, q) ==> NamesOne(ps, q.id)
  }

  lemma DistinctIdsAreUnshared(ps: seq<Profile>, p: Profile)
    requires DistinctIds(ps) && LocalIsFree(ps) && p in ps
    ensures Unshared(ps, p)
  {
    forall q, r | q in ps && r in ps && q.id == r.id
      ensures q == r
    {
      SameIdSameProfile(ps, q, r);
    }
  }

  lemma SentToItsKeeper(ps: seq<Profile>, p: Profile)
    requires p in ps && NamesOne(ps, p.id)
    ensures SentTo(ps, p.id) == Keeper(ps, p).id
  {
    if SentTo(ps, p.id) == p.id {
      SentToIs(ps, p.id);
      assert Names(p, p.id);
    } else {
      var q := SenderIsAProfile(ps, p.id);
      SameHostSameKeeper(ps, p, q);
    }
  }

  lemma KeeperRunsHere(ps: seq<Profile>, p: Profile)
    requires p in ps && NamesOne(ps, Keeper(ps, p).id)
    ensures RunnableHere(ps, Keeper(ps, p).id) <==> Runnable(Keeper(ps, p))
  {
    var k := Keeper(ps, p);
    SurvivingIdsAre(ps, k.id);
    KeeperIsRunnable(ps, p);
    assert Names(k, k.id) && Stays(k, Survivors(ps, Hosts(ps)));
    if q :| q in ps && Names(q, k.id) && Runnable(q) && Stays(q, Survivors(ps, Hosts(ps))) {
      assert SameConnection(k, q);
      assert SameConnection(p, q);
    }
  }

  /** The active connection is kept exactly if some duplicate of it is runnable, unless
      it shares ids with another connection. */
  lemma ActiveConnectionIsKept(persisted: Persisted, fallback: Runner, p: Profile)
    requires p in persisted.profiles && Unshared(persisted.profiles, p) && persisted.active == Some(p.id)
    ensures Normalize(persisted, fallback).active == Keeper(persisted.profiles, p).id
            <==> exists q :: q in persisted.profiles && SameConnection(p, q) && Runnable(q)
  {
    SentToItsKeeper(persisted.profiles, p);
    KeeperRunsHere(persisted.profiles, p);
    KeeperIsRunnable(persisted.profiles, p);
    SelectionSurvivesIff(persisted, fallback);
  }

  lemma StayingIsKeeping(ps: seq<Profile>, q: Profile)
    requires q in ps && NamesOne(ps, q.id) && Stays(q, Survivors(ps, Hosts(ps)))
    ensures Keeper(ps, q).id == q.id
  {
    if q.Ssh? {
      SurvivingIdsAre(ps, q.id);
      var r :| r in ps && r.Ssh? && Keeper(ps, r).id == q.id;
      assert SameConnection(Keeper(ps, r), q);
      SameHostSameKeeper(ps, r, q);
    }
  }

  /** A reference ends up at a kept profile exactly if it names its connection. */
  lemma SentToKeptIff(ps: seq<Profile>, q: Profile, from: Id)
    requires q in ps && Unshared(ps, q) && Stays(q, Survivors(ps, Hosts(ps)))
    ensures SentTo(ps, from) == q.id <==> exists p :: p in ps && p.id == from && SameConnection(p, q)
  {
    StayingIsKeeping(ps, q);
    if p :| p in ps && p.id == from && SameConnection(p, q) {
      SentToItsKeeper(ps, p);
      SameHostSameKeeper(ps, p, q);
    }
    if SentTo(ps, from) == q.id && from != q.id {
      var p := SenderIsAProfile(ps, from);
      assert SameConnection(Keeper(ps, p), q);
      assert SameConnection(p, q);
    }
  }

  /** An implicit local profile is referred to only by its own id. */
  lemma SentToLocalIff(ps: seq<Profile>, q: Profile, from: Id)
    requires q !in ps && NamesOne(ps, q.id) && forall p :: p in ps ==> p.id != q.id
    ensures SentTo(ps, from) == q.id <==> from == q.id
  {
    if SentTo(ps, from) != from {
      var p := SenderIsAProfile(ps, from);
      assert Keeper(ps, p) in ps;
    }
  }

  /** A runnable profile of the output is open exactly if some listed id is its own or
      names a profile of its connection, or, where nothing is listed, if it is selected;
      unless it shares ids with another connection. */
  lemma OpenFoldersAreKept(persisted: Persisted, fallback: Runner, q: Profile)
    requires Unshared(persisted.profiles, q) && q in Normalize(persisted, fallback).profiles && Runnable(q)
    ensures q.id in Normalize(persisted, fallback).open <==>
            match persisted.open
            case None => q.id == Normalize(persisted, fallback).active
            case Some(ids) => q.id in ids || exists p :: p in persisted.profiles && p.id in ids && SameConnection(p, q)
  {
    var ps := persisted.profiles;
    KeptHere(ps, fallback, q);
    RunnableHereIff(ps, fallback, q.id);
    assert Names(q, q.id);
    OpenIffListed(persisted, fallback, q.id);
    forall from
      ensures SentTo(ps, from) == q.id <==> from == q.id || exists p :: p in ps && p.id == from && SameConnection(p, q)
    {
      if q in ps {
        SentToKeptIff(ps, q, from);
      } else {
        SentToLocalIff(ps, q, from);
      }
    }
  }

  lemma KeptHere(ps: seq<Profile>, fallback: Runner, q: Profile)
    requires q in NormalProfiles(ps, fallback)
    ensures if q in ps then Stays(q, Survivors(ps, Hosts(ps))) else q == Local(LOCAL_PROFILE_ID, fallback) && !HasLocal(ps)
  {
    KeptLocals(ps, Survivors(ps, Hosts(ps)));
  }
}
