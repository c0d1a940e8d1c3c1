/** Taking one element out of a sequence and putting one in. */
module Sequences {
  function Cut<T>(s: seq<T>, i: nat): (r: seq<T>)
    requires i < |s|
    ensures |r| == |s| - 1
  {
    s[..i] + s[i + 1..]
  }

  function Insert<T>(s: seq<T>, i: nat, x: T): (r: seq<T>)
    requires i <= |s|
    ensures |r| == |s| + 1
  {
    s[..i] + [x] + s[i..]
  }

  function Moved<T>(s: seq<T>, from: nat, to: nat): (r: seq<T>)
    requires from < |s| && to < |s|
    ensures |r| == |s|
  {
    Insert(Cut(s, from), to, s[from])
  }

  lemma SplitAt<T>(s: seq<T>, i: nat)
    requires i < |s|
    ensures s == s[..i] + [s[i]] + s[i + 1..]
  {
  }

  lemma CutMiddle<T>(a: seq<T>, x: T, b: seq<T>)
    ensures Cut(a + [x] + b, |a|) == a + b && (a + [x] + b)[|a|] == x
  {
  }

  lemma InsertMiddle<T>(a: seq<T>, x: T, b: seq<T>)
    ensures Insert(a + b, |a|, x) == a + [x] + b
  {
    assert (a + b)[..|a|] == a && (a + b)[|a|..] == b;
  }

  lemma CutUndoesInsert<T>(s: seq<T>, i: nat, x: T)
    requires i <= |s|
    ensures Cut(Insert(s, i, x), i) == s && Insert(s, i, x)[i] == x
  {
    var r := Insert(s, i, x);
    assert r[..i] == s[..i];
    assert r[i + 1..] == s[i..];
  }

  lemma InsertUndoesCut<T>(s: seq<T>, i: nat)
    requires i < |s|
    ensures Insert(Cut(s, i), i, s[i]) == s
  {
    var r := Cut(s, i);
    assert r[..i] == s[..i];
    assert r[i..] == s[i + 1..];
  }

  lemma MovingBackRestores<T>(s: seq<T>, from: nat, to: nat)
    requires from < |s| && to < |s|
    ensures Moved(Moved(s, from, to), to, from) == s
  {
    CutUndoesInsert(Cut(s, from), to, s[from]);
    InsertUndoesCut(s, from);
  }

  lemma CutIsPermutation<T>(s: seq<T>, i: nat)
    requires i < |s|
    ensures multiset(s) == multiset(Cut(s, i)) + multiset{s[i]}
  {
    assert s == s[..i] + ([s[i]] + s[i + 1..]);
  }

  lemma MovedIsPermutation<T>(s: seq<T>, from: nat, to: nat)
    requires from < |s| && to < |s|
    ensures multiset(Moved(s, from, to)) == multiset(s)
  {
    CutIsPermutation(s, from);
    CutUndoesInsert(Cut(s, from), to, s[from]);
    CutIsPermutation(Moved(s, from, to), to);
  }

  /** The element at i taken to the gap before element `gap`. */
  function InGap<T>(s: seq<T>, i: nat, gap: nat): seq<T>
    requires i < |s| && gap <= |s|
  {
    if gap <= i then s[..gap] + [s[i]] + s[gap..i] + s[i + 1..]
    else s[..i] + s[i + 1..gap] + [s[i]] + s[gap..]
  }

  lemma MovedToGap<T>(s: seq<T>, i: nat, gap: nat)
    requires i < |s| && gap <= |s|
    ensures Moved(s, i, if gap > i then gap - 1 else gap) == InGap(s, i, gap)
  {
    var r := Cut(s, i);
    if gap <= i {
      assert r[..gap] == s[..gap];
      assert r[gap..] == s[gap..i] + s[i + 1..];
    } else {
      assert r[..gap - 1] == s[..i] + s[i + 1..gap];
      assert r[gap - 1..] == s[gap..];
    }
  }
}
