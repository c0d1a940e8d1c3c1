/**
 The process-tree walk of one table capture (src/app/proc.rs). Captured tables
 are arbitrary: parent links may be dangling or cyclic.
 */
module ProcessTree {
  import opened Options

  type Pid = nat

  // One captured process and its parent link.
  datatype Stat = Stat(pid: Pid, parent: Pid)

  type Children = map<Pid, seq<Pid>>

  const MAX_PROCESSES: nat := 64

  // ----- The index -----

  function ChildrenOf(table: seq<Stat>, parent: Pid): seq<Pid> {
    if table == [] then []
    else
      var n := |table| - 1;
      ChildrenOf(table[..n], parent) + (if table[n].parent == parent then [table[n].pid] else [])
  }

  /** The index holds exactly the processes that have children, each with its
      children in table order. */
  ghost predicate Indexes(children: Children, table: seq<Stat>) {
    forall p :: (p in children <==> ChildrenOf(table, p) != []) && (p in children ==> children[p] == ChildrenOf(table, p))
  }

  method Capture(table: seq<Stat>) returns (children: Children)
    ensures Indexes(children, table)
  {
    children := map[];
    for i := 0 to |table|
      invariant Indexes(children, table[..i])
    {
      assert table[..i + 1][..i] == table[..i];
      var stat := table[i];
      var siblings := if stat.parent in children then children[stat.parent] else [];
      children := children[stat.parent := siblings + [stat.pid]];
    }
    assert table[..|table|] == table;
  }

  lemma {:induction false} ChildrenAreLinked(table: seq<Stat>, parent: Pid, child: Pid)
    ensures child in ChildrenOf(table, parent) <==> Stat(child, parent) in table
    decreases |table|
  {
    if table != [] {
      var n := |table| - 1;
      ChildrenAreLinked(table[..n], parent, child);
      assert table == table[..n] + [table[n]];
    }
  }

  // ----- Following parent links -----

  /** `path` leads from its first process to its last along parent links. */
  ghost predicate ParentPath(table: seq<Stat>, path: seq<Pid>) {
    path != [] && forall i :: 0 <= i < |path| - 1 ==> Stat(path[i], path[i + 1]) in table
  }

  ghost predicate Descends(table: seq<Stat>, pid: Pid, root: Pid) {
    exists path :: ParentPath(table, path) && path[0] == pid && path[|path| - 1] == root
  }

  lemma RootDescends(table: seq<Stat>, root: Pid)
    ensures Descends(table, root, root)
  {
    assert ParentPath(table, [root]);
  }

  lemma ChildDescends(table: seq<Stat>, child: Pid, pid: Pid, root: Pid)
    requires Descends(table, pid, root) && Stat(child, pid) in table
    ensures Descends(table, child, root)
  {
    var path :| ParentPath(table, path) && path[0] == pid && path[|path| - 1] == root;
    var longer := [child] + path;
    assert ParentPath(table, longer);
  }

  ghost predicate ClosedUnderChildren(table: seq<Stat>, pids: set<Pid>) {
    forall stat :: stat in table && stat.parent in pids ==> stat.pid in pids
  }

  lemma {:induction false} ClosedHoldsPath(table: seq<Stat>, pids: set<Pid>, path: seq<Pid>)
    requires ClosedUnderChildren(table, pids) && ParentPath(table, path) && path[|path| - 1] in pids
    ensures path[0] in pids
    decreases |path|
  {
    if |path| > 1 {
      ClosedHoldsPath(table, pids, path[1..]);
      assert Stat(path[0], path[1]) in table;
    }
  }

  lemma ClosedHoldsDescendants(table: seq<Stat>, pids: set<Pid>, root: Pid)
    requires ClosedUnderChildren(table, pids) && root in pids
    ensures forall pid :: Descends(table, pid, root) ==> pid in pids
  {
    forall pid | Descends(table, pid, root)
      ensures pid in pids
    {
      var path :| ParentPath(table, path) && path[0] == pid && path[|path| - 1] == root;
      ClosedHoldsPath(table, pids, path);
    }
  }

  // ----- The walk -----

  function Pids(table: seq<Stat>, root: Pid): set<Pid> {
    {root} + set stat | stat in table :: stat.pid
  }

  ghost function Reachable(table: seq<Stat>, root: Pid): set<Pid> {
    set pid | pid in Pids(table, root) && Descends(table, pid, root)
  }

  /** What holds between two turns of the walk: everything met descends from the
      root, and whatever is left to find hangs off the queue. */
  ghost predicate WalkInv(table: seq<Stat>, root: Pid, queue: seq<Pid>, visited: set<Pid>) {
    && (forall pid :: pid in queue || pid in visited ==> pid in Reachable(table, root))
    && (root in visited || root in queue)
    && (forall stat :: stat in table && stat.parent in visited ==> stat.pid in visited || stat.pid in queue)
  }

  lemma WalkStarts(table: seq<Stat>, root: Pid)
    ensures WalkInv(table, root, [root], {})
  {
    RootDescends(table, root);
  }

  lemma WalkPopsVisited(table: seq<Stat>, root: Pid, queue: seq<Pid>, visited: set<Pid>)
    requires WalkInv(table, root, queue, visited) && queue != [] && queue[|queue| - 1] in visited
    ensures WalkInv(table, root, queue[..|queue| - 1], visited)
  {
    assert queue == queue[..|queue| - 1] + [queue[|queue| - 1]];
  }

  lemma WalkExpands(table: seq<Stat>, root: Pid, queue: seq<Pid>, visited: set<Pid>)
    requires WalkInv(table, root, queue, visited) && queue != []
    ensures var pid := queue[|queue| - 1];
            WalkInv(table, root, queue[..|queue| - 1] + ChildrenOf(table, pid), visited + {pid})
  {
    var rest, pid := queue[..|queue| - 1], queue[|queue| - 1];
    var queue' := rest + ChildrenOf(table, pid);
    assert queue == rest + [pid];
    forall child | child in queue'
      ensures child in Reachable(table, root)
    {
      ChildrenAreLinked(table, pid, child);
      if child !in rest {
        ChildDescends(table, child, pid, root);
      }
    }
    forall stat | stat in table && stat.parent in visited + {pid}
      ensures stat.pid in visited + {pid} || stat.pid in queue'
    {
      ChildrenAreLinked(table, pid, stat.pid);
    }
  }

  /** When the queue is empty, the walk has met exactly the descendants. */
  lemma WalkEnds(table: seq<Stat>, root: Pid, visited: set<Pid>)
    requires WalkInv(table, root, [], visited)
    ensures visited == Reachable(table, root)
    ensures forall pid :: Descends(table, pid, root) <==> pid in visited
  {
    ClosedHoldsDescendants(table, visited, root);
  }

  function IndexedChildren(children: Children, pid: Pid): seq<Pid> {
    if pid in children then children[pid] else []
  }

  /** The uncapped membership walk. */
  method IsDescendantProcess(children: Children, root: Pid, pid: Pid, ghost table: seq<Stat>) returns (found: bool)
    requires Indexes(children, table)
    ensures found <==> Descends(table, pid, root)
  {
    var queue, visited := [root], {};
    WalkStarts(table, root);
    while queue != []
      invariant WalkInv(table, root, queue, visited) && pid !in visited
      decreases Reachable(table, root) - visited, |queue|
    {
      var current := queue[|queue| - 1];
      ghost var before := queue;
      queue := queue[..|queue| - 1];
      if current in visited {
        WalkPopsVisited(table, root, before, visited);
      } else {
        assert current in before;
        if current == pid {
          return true;
        }
        WalkExpands(table, root, before, visited);
        visited := visited + {current};
        queue := queue + IndexedChildren(children, current);
      }
    }
    WalkEnds(table, root, visited);
    return false;
  }

  // ----- The capped walk -----

  function WithEvidence(pids: seq<Pid>, evidence: Pid -> bool): seq<Pid> {
    if pids == [] then []
    else
      var n := |pids| - 1;
      WithEvidence(pids[..n], evidence) + (if evidence(pids[n]) then [pids[n]] else [])
  }

  predicate Distinct(pids: seq<Pid>) {
    forall i, j :: 0 <= i < j < |pids| ==> pids[i] != pids[j]
  }

  function Elements(pids: seq<Pid>): set<Pid> {
    set pid | pid in pids
  }

  lemma {:induction false} DistinctCount(pids: seq<Pid>)
    requires Distinct(pids)
    ensures |Elements(pids)| == |pids|
    decreases |pids|
  {
    if pids != [] {
      var n := |pids| - 1;
      DistinctCount(pids[..n]);
      assert pids == pids[..n] + [pids[n]];
      assert Elements(pids) == Elements(pids[..n]) + {pids[n]};
      assert pids[n] !in Elements(pids[..n]);
    }
  }

  /** What holds between two turns of the capped walk. Up to the cap it is the
      uncapped walk; past it, exactly 64 processes have been walked. */
  ghost predicate CappedInv(table: seq<Stat>, root: Pid, queue: seq<Pid>, visited: set<Pid>, walked: seq<Pid>) {
    && Distinct(walked) && Elements(walked) <= visited <= Reachable(table, root)
    && (forall pid :: pid in queue ==> pid in Reachable(table, root))
    && (if |visited| <= MAX_PROCESSES then WalkInv(table, root, queue, visited) && Elements(walked) == visited
        else |walked| == MAX_PROCESSES)
  }

  lemma CappedPopsVisited(table: seq<Stat>, root: Pid, queue: seq<Pid>, visited: set<Pid>, walked: seq<Pid>)
    requires CappedInv(table, root, queue, visited, walked) && queue != [] && queue[|queue| - 1] in visited
    ensures CappedInv(table, root, queue[..|queue| - 1], visited, walked)
  {
    if |visited| <= MAX_PROCESSES {
      WalkPopsVisited(table, root, queue, visited);
    }
  }

  lemma CappedExpands(table: seq<Stat>, root: Pid, queue: seq<Pid>, visited: set<Pid>, walked: seq<Pid>)
    requires CappedInv(table, root, queue, visited, walked) && queue != [] && queue[|queue| - 1] !in visited
    requires |visited| < MAX_PROCESSES
    ensures var pid := queue[|queue| - 1];
            CappedInv(table, root, queue[..|queue| - 1] + ChildrenOf(table, pid), visited + {pid}, walked + [pid])
  {
    var pid := queue[|queue| - 1];
    assert pid in queue;
    WalkExpands(table, root, queue, visited);
    assert Elements(walked + [pid]) == Elements(walked) + {pid};
    forall i | 0 <= i < |walked|
      ensures walked[i] != pid
    {
      assert walked[i] in Elements(walked);
    }
  }

  lemma CappedSkips(table: seq<Stat>, root: Pid, queue: seq<Pid>, visited: set<Pid>, walked: seq<Pid>)
    requires CappedInv(table, root, queue, visited, walked) && queue != [] && queue[|queue| - 1] !in visited
    requires |visited| >= MAX_PROCESSES
    ensures CappedInv(table, root, queue[..|queue| - 1], visited + {queue[|queue| - 1]}, walked)
  {
    assert queue[|queue| - 1] in queue;
    DistinctCount(walked);
  }

  lemma CappedEnds(table: seq<Stat>, root: Pid, visited: set<Pid>, walked: seq<Pid>)
    requires CappedInv(table, root, [], visited, walked)
    ensures |walked| == if |Reachable(table, root)| < MAX_PROCESSES then |Reachable(table, root)| else MAX_PROCESSES
    ensures |Reachable(table, root)| <= MAX_PROCESSES ==> Elements(walked) == Reachable(table, root)
  {
    DistinctCount(walked);
    SubsetSize(visited, Reachable(table, root));
    if |visited| <= MAX_PROCESSES {
      WalkEnds(table, root, visited);
    }
  }

  lemma ReachableLeft(table: seq<Stat>, root: Pid, queue: seq<Pid>, visited: set<Pid>, walked: seq<Pid>)
    requires CappedInv(table, root, queue, visited, walked) && queue != [] && queue[|queue| - 1] !in visited
    ensures Reachable(table, root) - (visited + {queue[|queue| - 1]}) < Reachable(table, root) - visited
  {
    assert queue[|queue| - 1] in queue;
    assert queue[|queue| - 1] in Reachable(table, root) - visited;
  }

  /** Processes beyond the cap still count as visited but are neither reported nor
      expanded. `walked` lists the processes asked for evidence, in order: they are
      distinct descendants, exactly 64 of them if there are more than 64
      descendants, and otherwise all of them. */
  method DescendantProcesses(children: Children, root: Pid, evidence: Pid -> bool, ghost table: seq<Stat>)
    returns (processes: seq<Pid>, ghost walked: seq<Pid>)
    requires Indexes(children, table)
    ensures Distinct(processes) && |processes| <= MAX_PROCESSES
    ensures forall pid :: pid in processes ==> pid in Reachable(table, root) && evidence(pid)
    ensures |Reachable(table, root)| <= MAX_PROCESSES ==>
              forall pid :: pid in processes <==> pid in Reachable(table, root) && evidence(pid)
    ensures processes == WithEvidence(walked, evidence)
    ensures Distinct(walked) && Elements(walked) <= Reachable(table, root)
    ensures |walked| == if |Reachable(table, root)| < MAX_PROCESSES then |Reachable(table, root)| else MAX_PROCESSES
    ensures |Reachable(table, root)| <= MAX_PROCESSES ==> Elements(walked) == Reachable(table, root)
  {
    processes, walked := [], [];
    var queue, visited := [root], {};
    WalkStarts(table, root);
    while queue != []
      invariant processes == WithEvidence(walked, evidence)
      invariant CappedInv(table, root, queue, visited, walked)
      decreases Reachable(table, root) - visited, |queue|
    {
      var current := queue[|queue| - 1];
      ghost var before := queue;
      queue := queue[..|queue| - 1];
      if current in visited {
        CappedPopsVisited(table, root, before, visited, walked);
      } else {
        ReachableLeft(table, root, before, visited, walked);
        var met := visited + {current};
        if |met| > MAX_PROCESSES {
          CappedSkips(table, root, before, visited, walked);
        } else {
          CappedExpands(table, root, before, visited, walked);
          EvidenceSnoc(walked, evidence, current);
          walked := walked + [current];
          if evidence(current) {
            processes := processes + [current];
          }
          queue := queue + IndexedChildren(children, current);
        }
        visited := met;
      }
    }
    CappedEnds(table, root, visited, walked);
    EvidenceIsDistinct(walked, evidence);
    forall pid
      ensures pid in processes <==> pid in Elements(walked) && evidence(pid)
    {
      EvidenceMembers(walked, evidence, pid);
    }
  }

  lemma {:induction false} SubsetSize(a: set<Pid>, b: set<Pid>)
    requires a <= b
    ensures |a| <= |b|
  {
    assert b == a + (b - a);
    assert |b| == |a| + |b - a|;
  }

  lemma EvidenceSnoc(pids: seq<Pid>, evidence: Pid -> bool, pid: Pid)
    ensures WithEvidence(pids + [pid], evidence) == WithEvidence(pids, evidence) + (if evidence(pid) then [pid] else [])
  {
    assert (pids + [pid])[..|pids|] == pids;
  }

  lemma {:induction false} EvidenceIsDistinct(pids: seq<Pid>, evidence: Pid -> bool)
    requires Distinct(pids)
    ensures Distinct(WithEvidence(pids, evidence)) && |WithEvidence(pids, evidence)| <= |pids|
    decreases |pids|
  {
    if pids != [] {
      var n := |pids| - 1;
      var before := WithEvidence(pids[..n], evidence);
      EvidenceIsDistinct(pids[..n], evidence);
      forall i | 0 <= i < |before|
        ensures before[i] != pids[n]
      {
        EvidenceMembers(pids[..n], evidence, before[i]);
      }
    }
  }

  lemma {:induction false} EvidenceMembers(pids: seq<Pid>, evidence: Pid -> bool, pid: Pid)
    ensures pid in WithEvidence(pids, evidence) <==> pid in pids && evidence(pid)
    decreases |pids|
  {
    if pids != [] {
      var n := |pids| - 1;
      EvidenceMembers(pids[..n], evidence, pid);
      assert pids == pids[..n] + [pids[n]];
    }
  }

  /** The trait's default answer, from the capped walk: it never claims more than
      the uncapped walk, and agrees with it on processes with evidence as long as
      there are at most 64 descendants. */
  method DefaultIsDescendant(children: Children, root: Pid, pid: Pid, evidence: Pid -> bool, ghost table: seq<Stat>)
    returns (found: bool)
    requires Indexes(children, table)
    ensures found ==> Descends(table, pid, root)
    ensures |Reachable(table, root)| <= MAX_PROCESSES && evidence(pid) ==> (found <==> Descends(table, pid, root))
  {
    RootDescends(table, root);
    if pid == root {
      return true;
    }
    ghost var walked;
    var processes;
    processes, walked := DescendantProcesses(children, root, evidence, table);
    EvidenceMembers(walked, evidence, pid);
    ReachableIsDescends(table, pid, root);
    assert pid in walked <==> pid in Elements(walked);
    return pid in processes;
  }

  lemma ReachableIsDescends(table: seq<Stat>, pid: Pid, root: Pid)
    ensures pid in Reachable(table, root) <==> Descends(table, pid, root)
  {
    if Descends(table, pid, root) {
      var path :| ParentPath(table, path) && path[0] == pid && path[|path| - 1] == root;
      if |path| > 1 {
        assert Stat(path[0], path[1]) in table;
      }
    }
  }
}
