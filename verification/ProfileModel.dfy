/**
 The desktop shell's profiles and their normaliser
 (desktop/src/effect/profileModel.ts). Persisted values arrive field by field
 already decoded and trimmed.
 */
module ProfileModel {
  import opened Options

  type Id = string

  datatype Runner = Runner(binaryPath: string, env: seq<(string, string)>)

  datatype Profile =
    | Local(id: Id, runner: Runner)
    | Ssh(id: Id, host: string, clientTty: string, runner: Runner, enabled: bool, probedHost: Option<string>)

  datatype Persisted = Persisted(active: Option<Id>, profiles: seq<Profile>, open: Option<seq<Id>>)

  datatype State = State(active: Id, profiles: seq<Profile>, open: seq<Id>)

  const LOCAL_PROFILE_ID: Id := "local"

  function AsPersisted(s: State): Persisted {
    Persisted(Some(s.active), s.profiles, Some(s.open))
  }

  predicate Runnable(p: Profile) {
    p.Local? || p.enabled
  }

  predicate Names(p: Profile, id: Id) {
    p.id == id
  }

  ghost predicate RunnableId(ps: seq<Profile>, id: Id) {
    exists p :: p in ps && Names(p, id) && Runnable(p)
  }

  ghost predicate HasLocal(ps: seq<Profile>) {
    exists p :: p in ps && p.Local?
  }

  // ----- Specification of the normaliser -----

  /** The SSH hosts in the order they first appear. */
  function Hosts(ps: seq<Profile>): seq<string> {
    if ps == [] then []
    else
      var p, before := ps[|ps| - 1], Hosts(ps[..|ps| - 1]);
      if p.Ssh? && p.host !in before then before + [p.host] else before
  }

  function Group(ps: seq<Profile>, host: string): (group: seq<Profile>)
    ensures forall p :: p in group <==> p in ps && p.Ssh? && p.host == host
  {
    if ps == [] then []
    else
      var p, before := ps[|ps| - 1], Group(ps[..|ps| - 1], host);
      assert ps == ps[..|ps| - 1] + [p];
      if p.Ssh? && p.host == host then before + [p] else before
  }

  /** Index of the first runnable profile, or the length. */
  function FirstRunnable(ps: seq<Profile>): (i: nat)
    ensures i <= |ps|
    ensures i < |ps| ==> Runnable(ps[i])
    ensures forall k :: 0 <= k < i ==> !Runnable(ps[k])
  {
    if ps == [] then 0
    else
      var n := |ps| - 1;
      var i := FirstRunnable(ps[..n]);
      if i < n || Runnable(ps[n]) then i else n + 1
  }

  /** The profile that keeps a connection: the first runnable one, else the first. */
  function Survivor(group: seq<Profile>): (p: Profile)
    requires group != []
    ensures p in group
  {
    var i := FirstRunnable(group);
    if i < |group| then group[i] else group[0]
  }

  function RemapGroup(remap: map<Id, Id>, group: seq<Profile>, survivor: Id): map<Id, Id> {
    if group == [] then remap
    else
      var before := RemapGroup(remap, group[..|group| - 1], survivor);
      var p := group[|group| - 1];
      if p.id != survivor then before[p.id := survivor] else before
  }

  function Remap(ps: seq<Profile>, hosts: seq<string>): map<Id, Id> {
    if hosts == [] then map[]
    else
      var group := Group(ps, hosts[|hosts| - 1]);
      var before := Remap(ps, hosts[..|hosts| - 1]);
      if group == [] then before else RemapGroup(before, group, Survivor(group).id)
  }

  function Survivors(ps: seq<Profile>, hosts: seq<string>): set<Id> {
    if hosts == [] then {}
    else
      var group := Group(ps, hosts[|hosts| - 1]);
      Survivors(ps, hosts[..|hosts| - 1]) + if group == [] then {} else {Survivor(group).id}
  }

  function Kept(ps: seq<Profile>, survivors: set<Id>): (kept: seq<Profile>)
    ensures forall p :: p in kept <==> p in ps && (p.Local? || p.id in survivors)
  {
    if ps == [] then []
    else
      var p, before := ps[|ps| - 1], Kept(ps[..|ps| - 1], survivors);
      assert ps == ps[..|ps| - 1] + [p];
      if p.Local? || p.id in survivors then before + [p] else before
  }

  ghost function WithLocal(ps: seq<Profile>, fallback: Runner): seq<Profile> {
    if HasLocal(ps) then ps else [Local(LOCAL_PROFILE_ID, fallback)] + ps
  }

  function Mapped(remap: map<Id, Id>, id: Id): Id {
    if id in remap then remap[id] else id
  }

  /** The listed ids, remapped, without those that do not name a runnable profile
      and without repetitions. */
  ghost function OpenIds(ids: seq<Id>, remap: map<Id, Id>, ps: seq<Profile>): seq<Id> {
    if ids == [] then []
    else
      var before := OpenIds(ids[..|ids| - 1], remap, ps);
      var id := Mapped(remap, ids[|ids| - 1]);
      if RunnableId(ps, id) && id !in before then before + [id] else before
  }

  /** The profiles that survive. */
  ghost function NormalProfiles(ps: seq<Profile>, fallback: Runner): seq<Profile> {
    WithLocal(Kept(ps, Survivors(ps, Hosts(ps))), fallback)
  }

  ghost function ActiveId(requested: Option<Id>, remap: map<Id, Id>, ps: seq<Profile>): Id
    requires ps != []
  {
    if requested.Some? && RunnableId(ps, Mapped(remap, requested.value)) then Mapped(remap, requested.value)
    else
      var i := FirstRunnable(ps);
      ps[if i < |ps| then i else 0].id
  }

  ghost function Normalize(p: Persisted, fallback: Runner): State {
    var remap := Remap(p.profiles, Hosts(p.profiles));
    var profiles := NormalProfiles(p.profiles, fallback);
    NormalProfilesNonempty(p.profiles, fallback);
    var active := ActiveId(p.active, remap, profiles);
    State(active, profiles, if p.open.Some? then OpenIds(p.open.value, remap, profiles) else OpenIds([active], map[], profiles))
  }

  lemma NormalProfilesNonempty(ps: seq<Profile>, fallback: Runner)
    ensures NormalProfiles(ps, fallback) != []
    ensures HasLocal(NormalProfiles(ps, fallback))
  {
    var kept := Kept(ps, Survivors(ps, Hosts(ps)));
    if !HasLocal(kept) {
      assert WithLocal(kept, fallback)[0].Local?;
    }
  }

  // ----- The normaliser as the source runs it -----

  method GroupByHost(ps: seq<Profile>) returns (groups: map<string, seq<Profile>>, order: seq<string>)
    ensures order == Hosts(ps)
    ensures forall host :: host in groups <==> host in order
    ensures forall host :: host in groups ==> groups[host] != [] && groups[host] == Group(ps, host)
  {
    groups, order := map[], [];
    for i := 0 to |ps|
      invariant order == Hosts(ps[..i])
      invariant forall host :: host in groups <==> host in order
      invariant forall host :: host in groups ==> groups[host] != []
      invariant forall host :: Group(ps[..i], host) == if host in groups then groups[host] else []
    {
      var p := ps[i];
      assert ps[..i + 1][..i] == ps[..i];
      if p.Ssh? {
        if p.host in groups {
          groups := groups[p.host := groups[p.host] + [p]];
        } else {
          groups := groups[p.host := [p]];
          order := order + [p.host];
        }
      }
    }
    assert ps[..|ps|] == ps;
  }

  method RemapToSurvivor(before: map<Id, Id>, group: seq<Profile>, survivor: Id) returns (remap: map<Id, Id>)
    ensures remap == RemapGroup(before, group, survivor)
  {
    remap := before;
    for i := 0 to |group|
      invariant remap == RemapGroup(before, group[..i], survivor)
    {
      assert group[..i + 1][..i] == group[..i];
      if group[i].id != survivor {
        remap := remap[group[i].id := survivor];
      }
    }
    assert group[..|group|] == group;
  }

  method PickSurvivors(groups: map<string, seq<Profile>>, order: seq<string>, ghost ps: seq<Profile>)
    returns (remap: map<Id, Id>, survivors: set<Id>)
    requires forall host :: host in order ==> host in groups && groups[host] != [] && groups[host] == Group(ps, host)
    ensures remap == Remap(ps, order) && survivors == Survivors(ps, order)
  {
    remap, survivors := map[], {};
    for i := 0 to |order|
      invariant remap == Remap(ps, order[..i]) && survivors == Survivors(ps, order[..i])
    {
      assert order[..i + 1][..i] == order[..i];
      var group := groups[order[i]];
      var survivor := Survivor(group);
      survivors := survivors + {survivor.id};
      remap := RemapToSurvivor(remap, group, survivor.id);
    }
    assert order[..|order|] == order;
  }

  method IsRunnableId(ps: seq<Profile>, id: Id) returns (runnable: bool)
    ensures runnable <==> RunnableId(ps, id)
  {
    for i := 0 to |ps|
      invariant forall k :: 0 <= k < i ==> !(Names(ps[k], id) && Runnable(ps[k]))
    {
      if ps[i].id == id && Runnable(ps[i]) {
        return true;
      }
    }
    return false;
  }

  method SomeLocal(ps: seq<Profile>) returns (found: bool)
    ensures found <==> HasLocal(ps)
  {
    for i := 0 to |ps|
      invariant forall k :: 0 <= k < i ==> !ps[k].Local?
    {
      if ps[i].Local? {
        return true;
      }
    }
    return false;
  }

  method FilterOpen(ids: seq<Id>, remap: map<Id, Id>, ps: seq<Profile>) returns (open: seq<Id>)
    ensures open == OpenIds(ids, remap, ps)
  {
    open := [];
    for i := 0 to |ids|
      invariant open == OpenIds(ids[..i], remap, ps)
    {
      assert ids[..i + 1][..i] == ids[..i];
      var id := Mapped(remap, ids[i]);
      var runnable := IsRunnableId(ps, id);
      if runnable && id !in open {
        open := open + [id];
      }
    }
    assert ids[..|ids|] == ids;
  }

  method NormalizeProfileState(p: Persisted, fallback: Runner) returns (s: State)
    ensures s == Normalize(p, fallback)
  {
    var groups, order := GroupByHost(p.profiles);
    var remap, survivors := PickSurvivors(groups, order, p.profiles);
    var profiles := Kept(p.profiles, survivors);
    var found := SomeLocal(profiles);
    if !found {
      profiles := [Local(LOCAL_PROFILE_ID, fallback)] + profiles;
    }
    NormalProfilesNonempty(p.profiles, fallback);
    var first := FirstRunnable(profiles);
    var active := profiles[if first < |profiles| then first else 0].id;
    if p.active.Some? {
      var requested := Mapped(remap, p.active.value);
      var runnable := IsRunnableId(profiles, requested);
      if runnable {
        active := requested;
      }
    }
    var open;
    if p.open.Some? {
      open := FilterOpen(p.open.value, remap, profiles);
    } else {
      open := FilterOpen([active], map[], profiles);
    }
    s := State(active, profiles, open);
  }
}
