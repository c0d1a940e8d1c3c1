/**
 What the fence's floor costs (desktop/src-tauri/src/subscribe.rs:144-189): which starts
 the bounded fence turns away that an unbounded map would honour, in terms of the
 history of honoured starts alone.
 */
module FenceCounting {
  import opened EpochFence

  /** The sources honoured with a newer epoch. */
  ghost function NewerKeys(history: seq<Start>, epoch: Epoch): set<SourceKey> {
    set start | start in history && start.epoch > epoch :: start.key
  }

  /** A raised floor means a full fence, and the floor is the epoch of a source that has
      been evicted and not come back. */
  ghost predicate FullAboveFloor(fence: Fence, history: seq<Start>) {
    fence.floor > 0 ==>
      |fence.lastStarted| == FENCE_CAP
      && exists start :: start in history && start.epoch == fence.floor && start.key !in fence.lastStarted
  }

  lemma {:induction false} SubsetSize(a: set<SourceKey>, b: set<SourceKey>)
    requires a <= b
    ensures |a| <= |b| && (|a| == |b| ==> a == b)
    decreases |a|
  {
    if a != {} {
      var x :| x in a;
      SubsetSize(a - {x}, b - {x});
      assert a == a - {x} + {x} && b == b - {x} + {x};
    }
  }

  lemma RememberedStays(fence: Fence, history: seq<Start>, start: Start)
    requires FullAboveFloor(fence, history) && fence.floor > 0
    requires |fence.lastStarted[start.key := start.epoch]| <= FENCE_CAP
    ensures start.key in fence.lastStarted
    ensures FullAboveFloor(Fence(fence.lastStarted[start.key := start.epoch], fence.floor), history + [start])
  {
    var entries := fence.lastStarted[start.key := start.epoch];
    assert entries.Keys == fence.lastStarted.Keys + {start.key};
    SubsetSize(fence.lastStarted.Keys, entries.Keys);
    assert |fence.lastStarted.Keys| == FENCE_CAP && |entries.Keys| <= FENCE_CAP;
    var gone :| gone in history && gone.epoch == fence.floor && gone.key !in fence.lastStarted;
    assert gone in history + [start] && gone.key !in entries;
  }

  lemma EvictedIsFull(fence: Fence, history: seq<Start>, start: Start, victim: SourceKey)
    requires Refines(fence, history) && EpochAdvances(fence, start.key, start.epoch)
    requires var entries := fence.lastStarted[start.key := start.epoch];
             |entries| > FENCE_CAP && IsLowest(entries, victim)
    ensures FullAboveFloor(Evict(fence.lastStarted[start.key := start.epoch], fence.floor, victim), history + [start])
  {
    var entries := fence.lastStarted[start.key := start.epoch];
    InsertRepresents(fence, history, start);
    assert Highest(history + [start], victim, entries[victim]) && fence.floor <= entries[victim];
    EvictedSize(fence, start, victim);
    assert Start(victim, entries[victim]) in history + [start];
  }

  lemma EvictedSize(fence: Fence, start: Start, victim: SourceKey)
    requires |fence.lastStarted| <= FENCE_CAP
    requires var entries := fence.lastStarted[start.key := start.epoch];
             |entries| > FENCE_CAP && victim in entries
    ensures |fence.lastStarted[start.key := start.epoch] - {victim}| == FENCE_CAP
  {
    var entries := fence.lastStarted[start.key := start.epoch];
    var rest := entries - {victim};
    assert entries.Keys == fence.lastStarted.Keys + {start.key};
    assert |entries.Keys| <= |fence.lastStarted.Keys| + 1;
    assert rest.Keys == entries.Keys - {victim};
    assert |rest| == |rest.Keys| && |entries| == |entries.Keys|;
  }

  lemma CommitKeepsFull(fence: Fence, history: seq<Start>, start: Start, after: Fence)
    requires Refines(fence, history) && FullAboveFloor(fence, history)
    requires GatedCommit(fence, start, after)
    ensures FullAboveFloor(after, history + [start])
  {
    var entries := fence.lastStarted[start.key := start.epoch];
    if |entries| > FENCE_CAP {
      var victim :| IsLowest(entries, victim) && after == Evict(entries, fence.floor, victim);
      EvictedIsFull(fence, history, start, victim);
    } else if fence.floor > 0 {
      RememberedStays(fence, history, start);
    }
  }

  lemma BelowFloorManyAreNewer(fence: Fence, history: seq<Start>, epoch: Epoch)
    requires Refines(fence, history) && FullAboveFloor(fence, history) && 0 < epoch <= fence.floor
    requires forall start :: start in history ==> start.epoch != epoch
    ensures |NewerKeys(history, epoch)| > FENCE_CAP
  {
    var gone :| gone in history && gone.epoch == fence.floor && gone.key !in fence.lastStarted;
    var keys := fence.lastStarted.Keys + {gone.key};
    forall key | key in keys
      ensures key in NewerKeys(history, epoch)
    {
      if key in fence.lastStarted {
        assert Highest(history, key, fence.lastStarted[key]);
        assert Start(key, fence.lastStarted[key]) in history;
      }
    }
    assert |keys| == |fence.lastStarted.Keys| + 1;
    SubsetSize(keys, NewerKeys(history, epoch));
  }

  lemma AboveFloorFewAreNewer(fence: Fence, history: seq<Start>, epoch: Epoch)
    requires Refines(fence, history) && epoch > fence.floor
    ensures |NewerKeys(history, epoch)| <= FENCE_CAP
  {
    assert NewerKeys(history, epoch) <= fence.lastStarted.Keys;
    SubsetSize(NewerKeys(history, epoch), fence.lastStarted.Keys);
  }

  /** A start whose epoch no other start has is admitted exactly if no newer one of its
      own source, and newer ones of at most 64 sources in all, have been honoured. */
  lemma GateCountsNewerKeys(fence: Fence, history: seq<Start>, key: SourceKey, epoch: Epoch)
    requires Refines(fence, history) && FullAboveFloor(fence, history)
    requires epoch > 0 && forall start :: start in history ==> start.epoch != epoch
    ensures EpochAdvances(fence, key, epoch) <==>
            UnboundedAdmits(history, key, epoch) && |NewerKeys(history, epoch)| <= FENCE_CAP
  {
    GateIsExact(history, fence, key, epoch);
    if epoch <= fence.floor {
      BelowFloorManyAreNewer(fence, history, epoch);
    } else {
      AboveFloorFewAreNewer(fence, history, epoch);
    }
  }

  lemma {:induction false} RunIsFull(history: seq<Start>, fences: seq<Fence>)
    requires FenceRun(history, fences)
    ensures FullAboveFloor(fences[|history|], history)
    decreases |history|
  {
    if history != [] {
      var n := |history| - 1;
      RunIsFull(history[..n], fences[..n + 1]);
      RunRefines(history[..n], fences[..n + 1]);
      CommitKeepsFull(fences[n], history[..n], history[n], fences[n + 1]);
      assert history == history[..n] + [history[n]];
    }
  }

  /** So over every run of gated commits. */
  lemma RunsCountNewerKeys(history: seq<Start>, fences: seq<Fence>, key: SourceKey, epoch: Epoch)
    requires FenceRun(history, fences)
    requires epoch > 0 && forall start :: start in history ==> start.epoch != epoch
    ensures EpochAdvances(fences[|history|], key, epoch) <==>
            UnboundedAdmits(history, key, epoch) && |NewerKeys(history, epoch)| <= FENCE_CAP
  {
    RunRefines(history, fences);
    RunIsFull(history, fences);
    GateCountsNewerKeys(fences[|history|], history, key, epoch);
  }
}
