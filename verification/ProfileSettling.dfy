/**
 Normalising twice (desktop/src/effect/profileModel.ts:137-219), on every input,
 profiles that share ids included: the list of profiles settles at once, the selection
 and the open folders unless a surviving profile's id is sent on again.
 */
module ProfileSettling {
  import opened Options
  import opened ProfileModel
  import opened ProfileLaws
  import opened ProfileReferences

  // ----- The profiles settle -----

  lemma {:induction false} GroupOfKept(ps: seq<Profile>, survivors: set<Id>, host: string)
    ensures Group(Kept(ps, survivors), host) == Kept(Group(ps, host), survivors)
    decreases |ps|
  {
    if ps != [] {
      var n := |ps| - 1;
      GroupOfKept(ps[..n], survivors, host);
      GroupSnoc(Kept(ps[..n], survivors), ps[n], host);
      KeptSnoc(Group(ps[..n], host), ps[n], survivors);
    }
  }

  lemma GroupSnoc(ps: seq<Profile>, p: Profile, host: string)
    ensures Group(ps + [p], host) == if p.Ssh? && p.host == host then Group(ps, host) + [p] else Group(ps, host)
  {
    assert (ps + [p])[..|ps|] == ps;
  }

  lemma KeptSnoc(ps: seq<Profile>, p: Profile, survivors: set<Id>)
    ensures Kept(ps + [p], survivors) == if Stays(p, survivors) then Kept(ps, survivors) + [p] else Kept(ps, survivors)
  {
    assert (ps + [p])[..|ps|] == ps;
  }

  lemma {:induction false} GroupBehindLocal(local: Profile, ps: seq<Profile>, host: string)
    requires local.Local?
    ensures Group([local] + ps, host) == Group(ps, host)
    decreases |ps|
  {
    if ps == [] {
      assert [local] + ps == [] + [local];
      GroupSnoc([], local, host);
    } else {
      var n := |ps| - 1;
      GroupBehindLocal(local, ps[..n], host);
      assert [local] + ps == ([local] + ps[..n]) + [ps[n]];
      GroupSnoc([local] + ps[..n], ps[n], host);
    }
  }

  lemma SurvivorSnoc(group: seq<Profile>, p: Profile)
    requires group != []
    ensures Survivor(group + [p]) == if Runnable(p) && !Runnable(Survivor(group)) then p else Survivor(group)
  {
    assert (group + [p])[..|group|] == group;
  }

  /** Leaving others out does not change which profile stands for a connection. */
  lemma {:induction false} SurvivorStays(group: seq<Profile>, survivors: set<Id>)
    requires group != [] && Stays(Survivor(group), survivors)
    ensures Kept(group, survivors) != [] && Survivor(Kept(group, survivors)) == Survivor(group)
    decreases |group|
  {
    var before, p := group[..|group| - 1], group[|group| - 1];
    assert group == before + [p];
    KeptSnoc(before, p, survivors);
    if before == [] {
      AloneItSurvives(p);
    } else {
      SurvivorSnoc(before, p);
      if Runnable(p) && !Runnable(Survivor(before)) {
        FirstRunnableSurvives(before, p, survivors);
      } else {
        SurvivorStays(before, survivors);
        SurvivorSnoc(Kept(before, survivors), p);
      }
    }
  }

  lemma AloneItSurvives(p: Profile)
    ensures Survivor([] + [p]) == p
  {
    assert [] + [p] == [p];
  }

  lemma FirstRunnableSurvives(before: seq<Profile>, p: Profile, survivors: set<Id>)
    requires before != [] && !Runnable(Survivor(before)) && Runnable(p)
    ensures Survivor(Kept(before, survivors) + [p]) == p
  {
    var kept := Kept(before, survivors);
    NoneRunnable(before);
    if kept == [] {
      AloneItSurvives(p);
      assert kept + [p] == [] + [p];
    } else {
      assert Survivor(kept) in before;
      SurvivorSnoc(kept, p);
    }
  }

  lemma NoneRunnable(group: seq<Profile>)
    requires group != [] && !Runnable(Survivor(group))
    ensures forall p :: p in group ==> !Runnable(p)
  {
  }

  lemma KeeperStaysKeeper(ps: seq<Profile>, fallback: Runner, p: Profile)
    requires p in ps && p.Ssh?
    ensures var q := Keeper(ps, p);
            q in NormalProfiles(ps, fallback) && Keeper(NormalProfiles(ps, fallback), q) == q
  {
    var q, survivors := Keeper(ps, p), Survivors(ps, Hosts(ps));
    SurvivingIdsAre(ps, q.id);
    assert q in Kept(ps, survivors);
    SurvivorStays(Group(ps, p.host), survivors);
    GroupOfKept(ps, survivors, p.host);
    GroupBehindLocal(Local(LOCAL_PROFILE_ID, fallback), Kept(ps, survivors), p.host);
  }

  /** The profiles that normalising keeps are kept by every later pass. */
  lemma ProfilesTwiceAreOnce(ps: seq<Profile>, fallback: Runner, later: Runner)
    ensures NormalProfiles(NormalProfiles(ps, fallback), later) == NormalProfiles(ps, fallback)
  {
    var once := NormalProfiles(ps, fallback);
    NormalProfilesNonempty(ps, fallback);
    forall p | p in once && p.Ssh?
      ensures p.id in Survivors(once, Hosts(once))
    {
      SurvivingIdsAre(ps, p.id);
      var q :| q in ps && q.Ssh? && Keeper(ps, q).id == p.id;
      KeeperStaysKeeper(ps, fallback, q);
      SurvivingIdsAre(once, p.id);
    }
    KeptAll(once, Survivors(once, Hosts(once)));
  }

  lemma {:induction false} OpenIdsShrink(ids: seq<Id>, remap: map<Id, Id>, ps: seq<Profile>)
    ensures |OpenIds(ids, remap, ps)| <= |ids|
    decreases |ids|
  {
    if ids != [] {
      OpenIdsShrink(ids[..|ids| - 1], remap, ps);
    }
  }

  lemma {:induction false} OpenIdsStayIff(ids: seq<Id>, remap: map<Id, Id>, ps: seq<Profile>)
    requires DistinctSeq(ids) && forall id :: id in ids ==> RunnableId(ps, id)
    ensures OpenIds(ids, remap, ps) == ids <==> forall id :: id in ids ==> Mapped(remap, id) == id
    decreases |ids|
  {
    if forall id :: id in ids ==> Mapped(remap, id) == id {
      OpenIdsAll(ids, remap, ps);
    } else if OpenIds(ids, remap, ps) == ids {
      var n := |ids| - 1;
      OpenIdsShrink(ids[..n], remap, ps);
      assert ids == ids[..n] + [ids[n]];
      assert OpenIds(ids[..n], remap, ps) == ids[..n];
      OpenIdsStayIff(ids[..n], remap, ps);
      assert false;
    }
  }

  // ----- The selection and the open folders -----

  /** The id survives, but for a host it names a superseded profile of. */
  ghost predicate MovesAgain(ps: seq<Profile>, id: Id) {
    id in Survivors(ps, Hosts(ps)) && SentOn(ps, id)
  }

  lemma KeepersAreTheSame(ps: seq<Profile>, fallback: Runner, p: Profile)
    requires p in NormalProfiles(ps, fallback) && p.Ssh?
    ensures p in ps && Keeper(NormalProfiles(ps, fallback), p) == Keeper(ps, p)
  {
    KeeperStaysKeeper(ps, fallback, p);
    SameHostSameKeeper(NormalProfiles(ps, fallback), p, Keeper(ps, p));
  }

  lemma MovesAgainIff(ps: seq<Profile>, fallback: Runner, id: Id)
    ensures SentOn(NormalProfiles(ps, fallback), id) <==> MovesAgain(ps, id)
  {
    var kept := NormalProfiles(ps, fallback);
    if p :| p in kept && p.Ssh? && Names(p, id) && Keeper(kept, p).id != id {
      KeepersAreTheSame(ps, fallback, p);
      assert p in Kept(ps, Survivors(ps, Hosts(ps)));
    }
    if MovesAgain(ps, id) {
      var p :| p in ps && p.Ssh? && Names(p, id) && Keeper(ps, p).id != id;
      assert p in Kept(ps, Survivors(ps, Hosts(ps)));
      KeepersAreTheSame(ps, fallback, p);
    }
  }

  predicate IsFirstRunnable(ps: seq<Profile>, id: Id) {
    var i := FirstRunnable(ps);
    i < |ps| && ps[i].id == id
  }

  /** The selection stays: not sent on, or sent to a source that is not runnable while
      being itself the one fallen back to. */
  ghost predicate ActiveSettles(p: Persisted, fallback: Runner, active: Id) {
    var kept := NormalProfiles(p.profiles, fallback);
    || !MovesAgain(p.profiles, active)
    || (!RunnableHere(p.profiles, SentTo(kept, active)) && IsFirstRunnable(kept, active))
  }

  /** No listed folder is sent to an id that is sent on; where nothing is listed, the
      selection is what will be open. */
  ghost predicate OpenSettles(p: Persisted, active: Id) {
    match p.open
    case None => !MovesAgain(p.profiles, active)
    case Some(ids) =>
      forall from :: from in ids && RunnableHere(p.profiles, SentTo(p.profiles, from)) ==>
                       !MovesAgain(p.profiles, SentTo(p.profiles, from))
  }

  lemma ActiveSettlesIff(p: Persisted, fallback: Runner)
    ensures var s := Normalize(p, fallback);
            s.profiles != []
            && (ActiveId(Some(s.active), Remap(s.profiles, Hosts(s.profiles)), s.profiles) == s.active
                <==> ActiveSettles(p, fallback, s.active))
  {
    var s := Normalize(p, fallback);
    SelectionIsListed(p, fallback);
    MovedIffSentOn(s.profiles, s.active);
    MovesAgainIff(p.profiles, fallback, s.active);
    RunnableHereIff(p.profiles, fallback, SentTo(s.profiles, s.active));
    var local :| local in s.profiles && local.Local?;
    assert FirstRunnable(s.profiles) < |s.profiles|;
  }

  lemma OpenSettlesIff(p: Persisted, fallback: Runner)
    ensures var s := Normalize(p, fallback);
            OpenIds(s.open, Remap(s.profiles, Hosts(s.profiles)), s.profiles) == s.open <==> OpenSettles(p, s.active)
  {
    var s := Normalize(p, fallback);
    SelectionIsListed(p, fallback);
    OpenIdsStayIff(s.open, Remap(s.profiles, Hosts(s.profiles)), s.profiles);
    forall id
      ensures Mapped(Remap(s.profiles, Hosts(s.profiles)), id) != id <==> MovesAgain(p.profiles, id)
      ensures id in s.open <==> RunnableHere(p.profiles, id) && Listed(p, s.active, id)
    {
      MovedIffSentOn(s.profiles, id);
      MovesAgainIff(p.profiles, fallback, id);
      OpenIffListed(p, fallback, id);
    }
  }

  /** On every input a second pass changes nothing exactly if no id that the selection or
      a listed folder is sent to is sent on in turn. */
  lemma NormalizeTwiceIsOnceIff(p: Persisted, fallback: Runner, later: Runner)
    ensures var active := SelectedId(p, fallback);
            Normalize(AsPersisted(Normalize(p, fallback)), later) == Normalize(p, fallback)
            <==> ActiveSettles(p, fallback, active) && OpenSettles(p, active)
  {
    ProfilesTwiceAreOnce(p.profiles, fallback, later);
    SelectedIdIsActive(p, fallback);
    ActiveSettlesIff(p, fallback);
    OpenSettlesIff(p, fallback);
  }

  /** An input on which it does: one id names a profile of each of two hosts, and the
      second host has an enabled profile of its own. The first pass selects that id, the
      second one sends it on. */
  lemma SharedIdsMoveTwice(runner: Runner, fallback: Runner)
    ensures var ps := [Ssh("a", "one", "", runner, true, None), Ssh("a", "two", "", runner, false, None),
                       Ssh("b", "two", "", runner, true, None), Local(LOCAL_PROFILE_ID, runner)];
            var s := Normalize(Persisted(None, ps, None), fallback);
            Normalize(AsPersisted(s), fallback) != s
  {
    var ps := [Ssh("a", "one", "", runner, true, None), Ssh("a", "two", "", runner, false, None),
               Ssh("b", "two", "", runner, true, None), Local(LOCAL_PROFILE_ID, runner)];
    var p := Persisted(None, ps, None);
    var s := Normalize(p, fallback);
    AllStay(ps, ps[0], ps[1], ps[2], fallback);
    assert FirstRunnable(ps) == 0;
    assert RunnableId(ps, "a") by {
      assert Names(ps[0], "a");
    }
    OpensTheOnly("a", ps);
    NormalizeTwiceIsOnceIff(p, fallback, fallback);
  }

  lemma OpensTheOnly(id: Id, ps: seq<Profile>)
    requires RunnableId(ps, id)
    ensures OpenIds([id], map[], ps) == [id]
  {
    assert [id][..0] == [];
  }

  lemma AllStay(ps: seq<Profile>, one: Profile, two: Profile, three: Profile, fallback: Runner)
    requires |ps| == 4 && ps[0] == one && ps[1] == two && ps[2] == three && ps[3].Local?
    requires one.Ssh? && two.Ssh? && three.Ssh? && one.id == two.id != three.id
    requires one.host != two.host == three.host && one.enabled && !two.enabled && three.enabled
    ensures NormalProfiles(ps, fallback) == ps && SentOn(ps, one.id)
  {
    WhoKeepsWhom(ps, one, two, three);
    BothKeepersStay(ps, one, three);
    OneOfThree(ps, one.id, three.id);
    AllSurvive(ps, fallback);
    assert Names(two, one.id);
  }

  lemma OneOfThree(ps: seq<Profile>, a: Id, b: Id)
    requires |ps| == 4 && ps[0].id == ps[1].id == a && ps[2].id == b && ps[3].Local?
    ensures HasLocal(ps) && forall p :: p in ps && p.Ssh? ==> p.id == a || p.id == b
  {
    assert ps[3] in ps;
  }

  lemma WhoKeepsWhom(ps: seq<Profile>, one: Profile, two: Profile, three: Profile)
    requires |ps| == 4 && ps[0] == one && ps[1] == two && ps[2] == three && ps[3].Local?
    requires one.Ssh? && two.Ssh? && three.Ssh?
    requires one.host != two.host == three.host && one.enabled && !two.enabled && three.enabled
    ensures one in ps && two in ps && three in ps
    ensures Keeper(ps, one) == one && Keeper(ps, two) == three && Keeper(ps, three) == three
  {
    OnlyRunnableKeeps(ps, one, one);
    OnlyRunnableKeeps(ps, two, three);
    OnlyRunnableKeeps(ps, three, three);
  }

  lemma AllSurvive(ps: seq<Profile>, fallback: Runner)
    requires HasLocal(ps) && forall p :: p in ps && p.Ssh? ==> p.id in Survivors(ps, Hosts(ps))
    ensures NormalProfiles(ps, fallback) == ps
  {
    KeptAll(ps, Survivors(ps, Hosts(ps)));
  }

  lemma OnlyRunnableKeeps(ps: seq<Profile>, p: Profile, q: Profile)
    requires p in ps && q in ps && SameConnection(p, q) && Runnable(q)
    requires forall i :: 0 <= i < |ps| && SameConnection(p, ps[i]) && Runnable(ps[i]) ==> ps[i] == q
    ensures Keeper(ps, p) == q
  {
    KeeperIsRunnable(ps, p);
  }

  lemma BothKeepersStay(ps: seq<Profile>, p: Profile, q: Profile)
    requires p in ps && q in ps && p.Ssh? && q.Ssh? && Keeper(ps, p) == p && Keeper(ps, q) == q
    ensures p.id in Survivors(ps, Hosts(ps)) && q.id in Survivors(ps, Hosts(ps))
  {
    SurvivingIdsAre(ps, p.id);
    SurvivingIdsAre(ps, q.id);
  }
}
