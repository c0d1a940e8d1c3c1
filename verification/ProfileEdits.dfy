/**
 The edits of a profile state (desktop/src/effect/profileModel.ts:259-464) and of
 the profile list alone. Text inputs arrive trimmed.
 */
module ProfileEdits {
  import opened Options
  import opened ProfileModel
  import opened ProfileLaws
  import opened ProfileReorder
  import opened Sequences

  const EMPTY_RUNNER := Runner("", [])

  // The identity of a runner: its serialised settings, which determine them.
  datatype RunnerKey = LocalRunner(runner: Runner) | SshRunner(host: string, clientTty: string, runner: Runner)

  function RunnerKeyFor(p: Profile): RunnerKey {
    if p.Local? then LocalRunner(p.runner) else SshRunner(p.host, p.clientTty, p.runner)
  }

  function ToggleOpen(s: State, id: Id): State {
    if IndexOf(s.profiles, id) == |s.profiles| then s
    else if id in s.open then s.(open := Closed(s.open, id))
    else s.(open := s.open + [id])
  }

  function Closed(open: seq<Id>, id: Id): (r: seq<Id>)
    ensures forall x :: x in r <==> x in open && x != id
  {
    if open == [] then []
    else
      assert open == [open[0]] + open[1..];
      (if open[0] == id then [] else [open[0]]) + Closed(open[1..], id)
  }

  function Opened(open: seq<Id>, id: Id): seq<Id> {
    if id in open then open else open + [id]
  }

  /** Whether the edit applies, and then its result before normalising. */
  function EnabledEdit(s: State, id: Id, enabled: bool): Option<State> {
    var i := IndexOf(s.profiles, id);
    if i == |s.profiles| || s.profiles[i].Local? || s.profiles[i].enabled == enabled then None
    else
      var open := if enabled then Opened(s.open, id) else Closed(s.open, id);
      Some(State(s.active, s.profiles[i := s.profiles[i].(enabled := enabled)], open))
  }

  ghost function SetEnabled(s: State, id: Id, enabled: bool): State {
    match EnabledEdit(s, id, enabled)
    case None => s
    case Some(edited) => Normalize(AsPersisted(edited), EMPTY_RUNNER)
  }

  /** A stale probe, of another runner than the profile now has, is dropped. */
  function RecordProbed(s: State, id: Id, host: string, key: RunnerKey): State {
    var i := IndexOf(s.profiles, id);
    if host == "" || i == |s.profiles| || s.profiles[i].Local? || RunnerKeyFor(s.profiles[i]) != key
       || s.profiles[i].probedHost == Some(host)
    then s
    else s.(profiles := s.profiles[i := s.profiles[i].(probedHost := Some(host))])
  }

  /** A retargeted source forgets the host probed on its old target. */
  function WithSettings(p: Profile, runner: Runner, host: string, clientTty: string): Profile {
    if p.Local? then p.(runner := runner)
    else Ssh(p.id, host, clientTty, runner, true, if host == p.host then p.probedHost else None)
  }

  function UpdateById(ps: seq<Profile>, id: Id, runner: Runner, host: string, clientTty: string): (r: seq<Profile>)
    ensures |r| == |ps|
    ensures forall i :: 0 <= i < |ps| ==> r[i] == if ps[i].id == id then WithSettings(ps[i], runner, host, clientTty) else ps[i]
  {
    if ps == [] then []
    else
      var n := |ps| - 1;
      UpdateById(ps[..n], id, runner, host, clientTty)
      + [if ps[n].id == id then WithSettings(ps[n], runner, host, clientTty) else ps[n]]
  }

  ghost predicate HostTaken(ps: seq<Profile>, id: Id, host: string) {
    exists p :: p in ps && p.id != id && p.Ssh? && p.host == host
  }

  ghost predicate HostCollides(ps: seq<Profile>, id: Id, host: string) {
    host != "" && HostTaken(ps, id, host)
  }

  /** Index of the first runnable profile of this id, or the length. */
  function RunnableIndex(ps: seq<Profile>, id: Id): (i: nat)
    ensures i <= |ps|
    ensures i < |ps| ==> Names(ps[i], id) && Runnable(ps[i])
    ensures forall k :: 0 <= k < i ==> !(Names(ps[k], id) && Runnable(ps[k]))
  {
    if ps == [] then 0
    else
      var n := |ps| - 1;
      var i := RunnableIndex(ps[..n], id);
      if i < n || (Names(ps[n], id) && Runnable(ps[n])) then i else n + 1
  }

  function ActiveProfile(s: State): Profile
    requires s.profiles != []
  {
    var i, first := RunnableIndex(s.profiles, s.active), FirstRunnable(s.profiles);
    if i < |s.profiles| then s.profiles[i]
    else if first < |s.profiles| then s.profiles[first]
    else s.profiles[0]
  }

  // ----- What the edits do to the profile list -----

  /** Lists that normalising leaves alone. */
  ghost predicate Solid(ps: seq<Profile>) {
    DistinctIds(ps) && DistinctHosts(ps) && HasLocal(ps)
  }

  function IdSet(ps: seq<Profile>): set<Id> {
    set p | p in ps :: p.id
  }

  /** No id changes its kind from one list to the other. */
  ghost predicate SameKinds(before: seq<Profile>, after: seq<Profile>) {
    forall p, q :: p in before && q in after && p.id == q.id ==> (p.Ssh? <==> q.Ssh?)
  }

  lemma SolidStays(ps: seq<Profile>, fallback: Runner)
    requires Solid(ps)
    ensures NormalProfiles(ps, fallback) == ps
  {
    forall p | p in ps
      ensures p in Kept(ps, Survivors(ps, Hosts(ps)))
    {
      OnlyOneKeepsItself(ps, p);
      KeepersSurvive(ps, p);
    }
    KeptAll(ps, Survivors(ps, Hosts(ps)));
  }

  lemma SolidIsOneEach(ps: seq<Profile>)
    requires Solid(ps)
    ensures SameKinds(ps, ps)
  {
  }

  /** Replacing one profile by another of the same id and kind, on a host no other
      profile has. */
  lemma ReplaceKeepsSolid(ps: seq<Profile>, i: nat, p: Profile)
    requires Solid(ps) && i < |ps| && p.id == ps[i].id && (p.Ssh? <==> ps[i].Ssh?)
    requires p.Ssh? ==> !HostTaken(ps, p.id, p.host)
    ensures Solid(ps[i := p]) && IdSet(ps[i := p]) == IdSet(ps) && SameKinds(ps, ps[i := p])
  {
    var after := ps[i := p];
    ReplaceKeepsIds(ps, i, p);
    forall j | 0 <= j < |ps| && j != i && p.Ssh? && ps[j].Ssh?
      ensures ps[j].host != p.host
    {
      assert ps[j] in ps;
    }
    forall q, r | q in ps && r in after && q.id == r.id
      ensures q.Ssh? <==> r.Ssh?
    {
      var j :| 0 <= j < |ps| && ps[j] == q;
      var k :| 0 <= k < |ps| && after[k] == r;
    }
    var local :| local in ps && local.Local?;
    var j :| 0 <= j < |ps| && ps[j] == local;
    assert after[j].Local?;
  }

  lemma ReplaceKeepsIds(ps: seq<Profile>, i: nat, p: Profile)
    requires i < |ps| && p.id == ps[i].id
    ensures IdSet(ps[i := p]) == IdSet(ps)
  {
    var after := ps[i := p];
    forall id | id in IdSet(ps)
      ensures id in IdSet(after)
    {
      var j :| 0 <= j < |ps| && ps[j].id == id;
      assert after[j] in after && after[j].id == id;
    }
    forall id | id in IdSet(after)
      ensures id in IdSet(ps)
    {
      var j :| 0 <= j < |ps| && after[j].id == id;
      assert ps[j] in ps && ps[j].id == id;
    }
  }

  lemma OwnHostIsFree(ps: seq<Profile>, i: nat)
    requires Solid(ps) && i < |ps| && ps[i].Ssh?
    ensures !HostTaken(ps, ps[i].id, ps[i].host)
  {
  }

  lemma UpdateIsAReplacement(ps: seq<Profile>, i: nat, runner: Runner, host: string, clientTty: string)
    requires DistinctIds(ps) && i < |ps|
    ensures UpdateById(ps, ps[i].id, runner, host, clientTty) == ps[i := WithSettings(ps[i], runner, host, clientTty)]
  {
    OthersHaveOtherIds(ps, i);
  }

  lemma UpdateUnknownIsInert(ps: seq<Profile>, id: Id, runner: Runner, host: string, clientTty: string)
    requires IndexOf(ps, id) == |ps|
    ensures UpdateById(ps, id, runner, host, clientTty) == ps
  {
  }

  lemma WithoutKeepsSolid(ps: seq<Profile>, i: nat)
    requires Solid(ps) && i < |ps| && ps[i].Ssh?
    ensures Solid(Without(ps, ps[i].id)) && IdSet(Without(ps, ps[i].id)) == IdSet(ps) - {ps[i].id}
    ensures SameKinds(ps, Without(ps, ps[i].id))
  {
    OthersHaveOtherIds(ps, i);
    WithoutIsACut(ps, i);
    CutKeepsDistinct(ps, i);
    CutMembers(ps, i);
    CutHosts(ps, i);
  }

  lemma CutHosts(ps: seq<Profile>, i: nat)
    requires DistinctHosts(ps) && i < |ps|
    ensures DistinctHosts(Cut(ps, i))
  {
    var r := Cut(ps, i);
    assert forall k :: 0 <= k < |r| ==> r[k] == ps[if k < i then k else k + 1];
  }

  lemma CutMembers(ps: seq<Profile>, i: nat)
    requires DistinctIds(ps) && i < |ps|
    ensures forall p :: p in Cut(ps, i) <==> p in ps && p != ps[i]
  {
    SplitAt(ps, i);
    CutKeepsDistinct(ps, i);
  }

  lemma AppendKeepsSolid(ps: seq<Profile>, p: Profile)
    requires Solid(ps) && p.id !in IdSet(ps) && p.Ssh? && !HostTaken(ps, p.id, p.host)
    ensures Solid(ps + [p]) && IdSet(ps + [p]) == IdSet(ps) + {p.id} && SameKinds(ps, ps + [p])
  {
    var after := ps + [p];
    forall k | 0 <= k < |ps|
      ensures ps[k].id != p.id && (ps[k].Ssh? ==> ps[k].host != p.host)
    {
      assert ps[k] in ps;
    }
    assert after[..|ps|] == ps;
  }

  lemma PermutationKeepsSolid(ps: seq<Profile>, after: seq<Profile>)
    requires Solid(ps) && multiset(after) == multiset(ps) && DistinctIds(after)
    ensures Solid(after) && IdSet(after) == IdSet(ps) && SameKinds(ps, after)
  {
    forall p
      ensures p in after <==> p in ps
    {
      assert p in multiset(after) <==> p in multiset(ps);
    }
    forall p, q | p in after && q in after && p.Ssh? && q.Ssh? && p.host == q.host
      ensures p == q
    {
    }
    OneEachMeansDistinct(after);
  }

  /** Reordering loses and renames nothing. */
  lemma ReorderKeepsSolid(ps: seq<Profile>, id: Id, target: Id)
    requires Solid(ps)
    ensures Solid(Reordered(ps, id, target)) && IdSet(Reordered(ps, id, target)) == IdSet(ps)
    ensures SameKinds(ps, Reordered(ps, id, target))
  {
    var from, to := IndexOf(ps, id), IndexOf(ps, target);
    if from < |ps| && to < |ps| {
      ReorderLands(ps, from, to);
    }
    PermutationKeepsSolid(ps, Reordered(ps, id, target));
  }

  // ----- What the edits do to the open folders and the selection -----

  lemma ClosedKeepsDistinct(open: seq<Id>, id: Id)
    requires DistinctSeq(open)
    ensures DistinctSeq(Closed(open, id))
    decreases |open|
  {
    if open != [] {
      var rest := Closed(open[1..], id);
      ClosedKeepsDistinct(open[1..], id);
      forall i | 0 <= i < |rest|
        ensures rest[i] != open[0]
      {
        assert rest[i] in open[1..];
      }
      assert Closed(open, id) == (if open[0] == id then rest else [open[0]] + rest);
    }
  }

  lemma EnabledEditIsListed(s: State, id: Id, enabled: bool)
    requires Normal(s) && EnabledEdit(s, id, enabled).Some?
    ensures var edited := EnabledEdit(s, id, enabled).value;
            DistinctSeq(edited.open) && forall x :: x in edited.open ==> RunnableId(edited.profiles, x)
  {
    var edited, i := EnabledEdit(s, id, enabled).value, IndexOf(s.profiles, id);
    ClosedKeepsDistinct(s.open, id);
    forall x | x in edited.open
      ensures RunnableId(edited.profiles, x)
    {
      if x == id {
        assert Names(edited.profiles[i], id) && edited.profiles[i] in edited.profiles;
      } else {
        OthersStayRunnable(s.profiles, i, edited.profiles[i], x);
      }
    }
  }

  lemma OthersStayRunnable(ps: seq<Profile>, i: nat, p: Profile, x: Id)
    requires i < |ps| && ps[i].id == p.id && x != p.id
    ensures RunnableId(ps[i := p], x) <==> RunnableId(ps, x)
  {
    if q :| q in ps && Names(q, x) && Runnable(q) {
      var j :| 0 <= j < |ps| && ps[j] == q;
      assert ps[i := p][j] == q;
    }
    if q :| q in ps[i := p] && Names(q, x) && Runnable(q) {
      var j :| 0 <= j < |ps| && ps[i := p][j] == q;
      assert ps[j] == q;
    }
  }

  lemma EnabledIsKept(s: State, id: Id, enabled: bool)
    requires Normal(s) && EnabledEdit(s, id, enabled).Some?
    ensures var (r, edited) := (SetEnabled(s, id, enabled), EnabledEdit(s, id, enabled).value);
            r.profiles == edited.profiles && r.open == edited.open && (RunnableId(edited.profiles, s.active) ==> r.active == s.active)
  {
    var edited, i := EnabledEdit(s, id, enabled).value, IndexOf(s.profiles, id);
    OwnHostIsFree(s.profiles, i);
    ReplaceKeepsSolid(s.profiles, i, edited.profiles[i]);
    EnabledEditIsListed(s, id, enabled);
    SolidNormalizes(edited, EMPTY_RUNNER);
  }

  /** Enabling or disabling a source changes that source's gate, opens or closes its
      folder, and moves the selection only away from a source it disables. */
  lemma EnableChangesOneSource(s: State, id: Id, enabled: bool)
    requires Normal(s) && EnabledEdit(s, id, enabled).Some?
    ensures var (r, i) := (SetEnabled(s, id, enabled), IndexOf(s.profiles, id));
            && r.profiles == s.profiles[i := s.profiles[i].(enabled := enabled)]
            && r.open == (if enabled then Opened(s.open, id) else Closed(s.open, id))
            && (id in r.open <==> enabled)
            && (forall x :: x != id ==> (x in r.open <==> x in s.open))
            && (r.active == s.active || (s.active == id && !enabled))
  {
    EnabledIsKept(s, id, enabled);
    if s.active != id || enabled {
      EditKeepsActive(s, id, enabled);
    }
  }

  lemma SolidNormalizes(s: State, fallback: Runner)
    requires Solid(s.profiles) && DistinctSeq(s.open) && forall id :: id in s.open ==> RunnableId(s.profiles, id)
    ensures var r := Normalize(AsPersisted(s), fallback);
            r.profiles == s.profiles && r.open == s.open && (RunnableId(s.profiles, s.active) ==> r.active == s.active)
  {
    SolidStays(s.profiles, fallback);
    SolidRefersToItself(s.profiles);
    OpenIdsAll(s.open, Remap(s.profiles, Hosts(s.profiles)), s.profiles);
  }

  lemma EditKeepsActive(s: State, id: Id, enabled: bool)
    requires Normal(s) && EnabledEdit(s, id, enabled).Some? && (s.active != id || enabled)
    ensures RunnableId(EnabledEdit(s, id, enabled).value.profiles, s.active)
  {
    var i, ps := IndexOf(s.profiles, id), EnabledEdit(s, id, enabled).value.profiles;
    if s.active == id {
      assert Names(ps[i], id) && ps[i] in ps;
    } else {
      OthersStayRunnable(s.profiles, i, ps[i], s.active);
    }
  }

  lemma SolidRefersToItself(ps: seq<Profile>)
    requires Solid(ps)
    ensures forall id :: RunnableId(ps, id) ==> Mapped(Remap(ps, Hosts(ps)), id) == id
  {
    forall id | RunnableId(ps, id)
      ensures Mapped(Remap(ps, Hosts(ps)), id) == id
    {
      var p :| p in ps && Names(p, id) && Runnable(p);
      OnlyOneKeepsItself(ps, p);
      ReferencesFollowConnections(ps, p);
    }
  }

  lemma {:induction false} ClosedAbsent(open: seq<Id>, id: Id)
    requires id !in open
    ensures Closed(open, id) == open && Closed(open + [id], id) == open
    decreases |open|
  {
    if open != [] {
      ClosedAbsent(open[1..], id);
      assert (open + [id])[1..] == open[1..] + [id];
      assert open == [open[0]] + open[1..];
    }
  }

  /** Opening a closed folder and closing it again restores the state; the other way
      round, the folder moves to the end of the open list. */
  lemma ToggleTwice(s: State, id: Id)
    requires IndexOf(s.profiles, id) < |s.profiles|
    ensures ToggleOpen(ToggleOpen(s, id), id) == if id in s.open then s.(open := Closed(s.open, id) + [id]) else s
  {
    if id !in s.open {
      ClosedAbsent(s.open, id);
    }
  }

  // ----- Which folder the row keys belong to -----

  predicate IsFolder(p: Profile) {
    Runnable(p) && (p.Local? || p.host != "")
  }

  /** Index of the first open folder in source order, or the length. */
  function KeybindOwner(s: State, ps: seq<Profile>): (i: nat)
    ensures i <= |ps|
    ensures i < |ps| ==> IsFolder(ps[i]) && ps[i].id in s.open
    ensures forall k :: 0 <= k < i ==> !(IsFolder(ps[k]) && ps[k].id in s.open)
  {
    if ps == [] then 0
    else
      var n := |ps| - 1;
      var i := KeybindOwner(s, ps[..n]);
      if i < n || (IsFolder(ps[n]) && ps[n].id in s.open) then i else n + 1
  }

  /** At a state the normaliser has settled, exactly the first open folder is the
      owner, and opening a folder behind it never takes the keys away. */
  lemma OpeningBehindKeepsTheOwner(s: State, j: nat)
    requires Normal(s) && j < |s.profiles| && KeybindOwner(s, s.profiles) < j && s.profiles[j].id !in s.open
    ensures KeybindOwner(ToggleOpen(s, s.profiles[j].id), s.profiles) == KeybindOwner(s, s.profiles)
  {
    var t, i := ToggleOpen(s, s.profiles[j].id), KeybindOwner(s, s.profiles);
    forall k | 0 <= k < i
      ensures s.profiles[k].id in t.open <==> s.profiles[k].id in s.open
    {
      assert s.profiles[k].id != s.profiles[j].id;
    }
  }

  /** In a settled state the row keys go to the first open source that the menu shows. */
  lemma OwnerIsTheFirstVisibleOpen(s: State)
    requires Normal(s)
    ensures var i := KeybindOwner(s, s.profiles);
            && (i < |s.profiles| ==> Visible(s.profiles[i]) && s.profiles[i].id in s.open)
            && (forall k :: 0 <= k < i ==> !(Visible(s.profiles[k]) && s.profiles[k].id in s.open))
  {
    forall k | 0 <= k < |s.profiles| && s.profiles[k].id in s.open
      ensures Runnable(s.profiles[k])
    {
      assert RunnableId(s.profiles, s.profiles[k].id);
      var p :| p in s.profiles && Names(p, s.profiles[k].id) && Runnable(p);
      SameIdSameProfile(s.profiles, p, s.profiles[k]);
    }
  }
}
