/**
 Drag-reordering of profiles (desktop/src/effect/profileModel.ts:369-381) and the
 menu gap a drop is aimed at (desktop/src/components/SourceSwitcher.tsx:159-189,
 desktop/src/DockApp.tsx:161-175).
 */
module ProfileReorder {
  import opened ProfileModel
  import opened ProfileLaws
  import opened Sequences

  /** Index of the first profile with this id, or the length. */
  function IndexOf(ps: seq<Profile>, id: Id): (i: nat)
    ensures i <= |ps|
    ensures i < |ps| ==> ps[i].id == id
    ensures forall k :: 0 <= k < i ==> ps[k].id != id
  {
    if ps == [] then 0
    else
      var n := |ps| - 1;
      var i := IndexOf(ps[..n], id);
      if i < n || ps[n].id == id then i else n + 1
  }

  function Without(ps: seq<Profile>, id: Id): seq<Profile> {
    if ps == [] then []
    else
      var n := |ps| - 1;
      Without(ps[..n], id) + if ps[n].id == id then [] else [ps[n]]
  }

  /** Insertion as `splice` does it: past the end means at the end. */
  function Inserted(ps: seq<Profile>, index: nat, p: Profile): seq<Profile> {
    Insert(ps, if index < |ps| then index else |ps|, p)
  }

  function Reordered(ps: seq<Profile>, id: Id, target: Id): seq<Profile> {
    var from, to := IndexOf(ps, id), IndexOf(ps, target);
    if from == |ps| || to == |ps| || from == to then ps else Inserted(Without(ps, id), to, ps[from])
  }

  method ReorderProfile(s: State, id: Id, target: Id) returns (next: State)
    ensures next == s.(profiles := Reordered(s.profiles, id, target))
  {
    var from, to := IndexOf(s.profiles, id), IndexOf(s.profiles, target);
    if from == |s.profiles| || to == |s.profiles| || from == to {
      return s;
    }
    var rest: seq<Profile> := [];
    for i := 0 to |s.profiles|
      invariant rest == Without(s.profiles[..i], id)
    {
      assert s.profiles[..i + 1][..i] == s.profiles[..i];
      if s.profiles[i].id != id {
        rest := rest + [s.profiles[i]];
      }
    }
    assert s.profiles[..|s.profiles|] == s.profiles;
    return s.(profiles := Inserted(rest, to, s.profiles[from]));
  }

  // ----- What a move does -----

  lemma {:induction false} WithoutAbsent(ps: seq<Profile>, id: Id)
    requires forall p :: p in ps ==> p.id != id
    ensures Without(ps, id) == ps
    decreases |ps|
  {
    if ps != [] {
      var n := |ps| - 1;
      assert ps[n] in ps;
      WithoutAbsent(ps[..n], id);
      assert ps == ps[..n] + [ps[n]];
    }
  }

  lemma {:induction false} WithoutConcat(a: seq<Profile>, b: seq<Profile>, id: Id)
    ensures Without(a + b, id) == Without(a, id) + Without(b, id)
    decreases |b|
  {
    if b == [] {
      assert a + b == a;
    } else {
      var n := |b| - 1;
      WithoutConcat(a, b[..n], id);
      assert (a + b)[..|a + b| - 1] == a + b[..n];
    }
  }

  lemma OthersHaveOtherIds(ps: seq<Profile>, i: nat)
    requires DistinctIds(ps) && i < |ps|
    ensures forall k :: 0 <= k < |ps| && k != i ==> ps[k].id != ps[i].id
  {
  }

  lemma WithoutSnoc(a: seq<Profile>, p: Profile)
    ensures Without(a + [p], p.id) == Without(a, p.id)
  {
    assert (a + [p])[..|a|] == a;
  }

  lemma WithoutMiddle(a: seq<Profile>, p: Profile, b: seq<Profile>)
    requires (forall q :: q in a ==> q.id != p.id) && (forall q :: q in b ==> q.id != p.id)
    ensures Without(a + [p] + b, p.id) == a + b
  {
    WithoutSnoc(a, p);
    WithoutAbsent(a, p.id);
    WithoutAbsent(b, p.id);
    WithoutConcat(a + [p], b, p.id);
  }

  lemma WithoutIsACut(ps: seq<Profile>, i: nat)
    requires i < |ps| && forall k :: 0 <= k < |ps| && k != i ==> ps[k].id != ps[i].id
    ensures Without(ps, ps[i].id) == Cut(ps, i)
  {
    SplitAt(ps, i);
    WithoutMiddle(ps[..i], ps[i], ps[i + 1..]);
  }

  lemma IndexIs(ps: seq<Profile>, i: nat)
    requires i < |ps| && forall k :: 0 <= k < |ps| && k != i ==> ps[k].id != ps[i].id
    ensures IndexOf(ps, ps[i].id) == i
  {
  }

  lemma ReorderIsAMove(ps: seq<Profile>, from: nat, to: nat)
    requires DistinctIds(ps) && from < |ps| && to < |ps|
    ensures Reordered(ps, ps[from].id, ps[to].id) == Moved(ps, from, to)
  {
    OthersHaveOtherIds(ps, from);
    IndexIs(ps, from);
    OthersHaveOtherIds(ps, to);
    IndexIs(ps, to);
    if from == to {
      InsertUndoesCut(ps, from);
    } else {
      WithoutIsACut(ps, from);
    }
  }

  /** The moved profile lands at the target's old index, the others keep their
      order, and nothing is lost or duplicated. */
  lemma ReorderLands(ps: seq<Profile>, from: nat, to: nat)
    requires DistinctIds(ps) && from < |ps| && to < |ps|
    ensures var after := Reordered(ps, ps[from].id, ps[to].id);
            && |after| == |ps| && after[to] == ps[from]
            && Cut(after, to) == Cut(ps, from)
            && multiset(after) == multiset(ps)
            && DistinctIds(after)
  {
    ReorderIsAMove(ps, from, to);
    CutUndoesInsert(Cut(ps, from), to, ps[from]);
    MovedIsPermutation(ps, from, to);
    CutKeepsDistinct(ps, from);
    InsertKeepsDistinct(Cut(ps, from), to, ps[from]);
  }

  lemma CutKeepsDistinct(ps: seq<Profile>, i: nat)
    requires DistinctIds(ps) && i < |ps|
    ensures DistinctIds(Cut(ps, i)) && forall q :: q in Cut(ps, i) ==> q.id != ps[i].id
  {
    var r := Cut(ps, i);
    assert forall k :: 0 <= k < |r| ==> r[k] == ps[if k < i then k else k + 1];
  }

  lemma InsertKeepsDistinct(ps: seq<Profile>, i: nat, p: Profile)
    requires DistinctIds(ps) && i <= |ps| && forall q :: q in ps ==> q.id != p.id
    ensures DistinctIds(Insert(ps, i, p))
  {
    var r := Insert(ps, i, p);
    assert r[i] == p && forall k :: 0 <= k < |r| && k != i ==> r[k] == ps[if k < i then k else k - 1];
  }

  /** Moving it onto whatever now sits at its old index restores the list. */
  lemma MoveBackRestores(ps: seq<Profile>, from: nat, to: nat)
    requires DistinctIds(ps) && from < |ps| && to < |ps|
    ensures var after := Reordered(ps, ps[from].id, ps[to].id);
            |after| == |ps| && Reordered(after, ps[from].id, after[from].id) == ps
  {
    ReorderLands(ps, from, to);
    ReorderIsAMove(ps, from, to);
    ReorderIsAMove(Moved(ps, from, to), to, from);
    MovingBackRestores(ps, from, to);
  }

  // ----- The menu shows only some profiles -----

  predicate Visible(p: Profile) {
    p.Local? || p.host != ""
  }

  function VisibleOf(ps: seq<Profile>): seq<Profile> {
    if ps == [] then []
    else VisibleOf(ps[..|ps| - 1]) + if Visible(ps[|ps| - 1]) then [ps[|ps| - 1]] else []
  }

  lemma {:induction false} VisibleMembers(ps: seq<Profile>)
    ensures forall p :: p in VisibleOf(ps) <==> p in ps && Visible(p)
    decreases |ps|
  {
    if ps != [] {
      var n := |ps| - 1;
      VisibleMembers(ps[..n]);
      assert ps == ps[..n] + [ps[n]];
    }
  }

  lemma {:induction false} VisibleConcat(a: seq<Profile>, b: seq<Profile>)
    ensures VisibleOf(a + b) == VisibleOf(a) + VisibleOf(b)
    decreases |b|
  {
    if b == [] {
      assert a + b == a;
    } else {
      var n := |b| - 1;
      VisibleConcat(a, b[..n]);
      assert (a + b)[..|a + b| - 1] == a + b[..n];
    }
  }

  lemma VisibleMiddle(a: seq<Profile>, p: Profile, b: seq<Profile>)
    requires Visible(p)
    ensures VisibleOf(a + [p] + b) == VisibleOf(a) + [p] + VisibleOf(b)
  {
    VisibleConcat(a + [p], b);
    VisibleConcat(a, [p]);
    assert [p][..0] == [];
  }

  /** How many visible profiles come before index i. */
  function Rank(ps: seq<Profile>, i: nat): nat
    requires i <= |ps|
  {
    |VisibleOf(ps[..i])|
  }

  lemma VisibleAt(ps: seq<Profile>, i: nat)
    requires i < |ps| && Visible(ps[i])
    ensures Rank(ps, i) < |VisibleOf(ps)| && VisibleOf(ps)[Rank(ps, i)] == ps[i]
    ensures VisibleOf(Cut(ps, i)) == Cut(VisibleOf(ps), Rank(ps, i))
  {
    SplitAt(ps, i);
    VisibleMiddle(ps[..i], ps[i], ps[i + 1..]);
    VisibleConcat(ps[..i], ps[i + 1..]);
    CutMiddle(VisibleOf(ps[..i]), ps[i], VisibleOf(ps[i + 1..]));
  }

  lemma VisibleInsert(ps: seq<Profile>, i: nat, p: Profile)
    requires i <= |ps| && Visible(p)
    ensures Rank(ps, i) <= |VisibleOf(ps)| && VisibleOf(Insert(ps, i, p)) == Insert(VisibleOf(ps), Rank(ps, i), p)
  {
    var a, b := ps[..i], ps[i..];
    assert ps == a + b;
    VisibleConcat(a, b);
    VisibleMiddle(a, p, b);
    InsertMiddle(VisibleOf(a), p, VisibleOf(b));
  }

  /** Taking a visible row out leaves as many rows before a visible target's old
      index as there were. */
  lemma RankAfterCut(ps: seq<Profile>, from: nat, to: nat)
    requires from < |ps| && to < |ps| && Visible(ps[from]) && Visible(ps[to])
    ensures Rank(Cut(ps, from), to) == Rank(ps, to)
  {
    if to <= from {
      assert Cut(ps, from)[..to] == ps[..to];
    } else {
      var a, b := ps[..from], ps[from + 1..to];
      assert Cut(ps, from)[..to] == a + b + [ps[to]];
      assert ps[..to] == a + [ps[from]] + b;
      VisibleConcat(a + b, [ps[to]]);
      VisibleConcat(a, b);
      VisibleConcat(a + [ps[from]], b);
      VisibleConcat(a, [ps[from]]);
      assert [ps[to]][..0] == [] && [ps[from]][..0] == [];
    }
  }

  lemma {:induction false} VisibleDistinct(ps: seq<Profile>)
    requires DistinctIds(ps)
    ensures DistinctIds(VisibleOf(ps))
    decreases |ps|
  {
    if ps != [] {
      var n := |ps| - 1;
      VisibleDistinct(ps[..n]);
      VisibleMembers(ps[..n]);
      forall i | 0 <= i < |VisibleOf(ps[..n])|
        ensures VisibleOf(ps[..n])[i].id != ps[n].id
      {
        assert VisibleOf(ps[..n])[i] in ps[..n];
      }
    }
  }

  /** Reordering and hiding drafts commute: the menu reorders as the list does. */
  lemma ReorderCommutesWithVisible(ps: seq<Profile>, from: nat, to: nat)
    requires DistinctIds(ps) && from < |ps| && to < |ps| && Visible(ps[from]) && Visible(ps[to])
    ensures VisibleOf(Reordered(ps, ps[from].id, ps[to].id)) == Reordered(VisibleOf(ps), ps[from].id, ps[to].id)
  {
    ReorderIsAMove(ps, from, to);
    VisibleAt(ps, from);
    VisibleAt(ps, to);
    RankAfterCut(ps, from, to);
    VisibleInsert(Cut(ps, from), to, ps[from]);
    VisibleDistinct(ps);
    ReorderIsAMove(VisibleOf(ps), Rank(ps, from), Rank(ps, to));
  }

  // ----- Dropping into a gap of the menu -----

  /** The row a drop into gap `gap` is aimed at, as the menu computes it: none when
      the gap is beside the dragged row. */
  function DropIndex(dragged: nat, gap: nat): nat {
    if gap > dragged then gap - 1 else gap
  }

  /** A drop that the menu accepts puts the row into the gap it was aimed at, however
      many hidden drafts lie between. */
  lemma DropLandsInItsGap(ps: seq<Profile>, dragged: nat, gap: nat)
    requires DistinctIds(ps) && dragged < |VisibleOf(ps)| && gap <= |VisibleOf(ps)|
    requires DropIndex(dragged, gap) != dragged
    ensures var shown := VisibleOf(ps);
            VisibleOf(Reordered(ps, shown[dragged].id, shown[DropIndex(dragged, gap)].id)) == InGap(shown, dragged, gap)
  {
    var shown, final := VisibleOf(ps), DropIndex(dragged, gap);
    VisibleDistinct(ps);
    VisibleMembers(ps);
    assert shown[dragged] in ps && shown[final] in ps;
    var from :| 0 <= from < |ps| && ps[from] == shown[dragged];
    var to :| 0 <= to < |ps| && ps[to] == shown[final];
    ReorderCommutesWithVisible(ps, from, to);
    ReorderIsAMove(shown, dragged, final);
    MovedToGap(shown, dragged, gap);
  }
}
