/**
 The bounded per-key epoch fence of the live subscription backend
 (desktop/src-tauri/src/subscribe.rs): a start is honoured only when its epoch
 advances past the highest epoch honoured for its source key. Only
 FENCE_CAP keys are remembered; evicted keys are covered by one shared floor.

 The reference is the whole history of honoured starts. `Refines` says how the
 bounded fence represents a history, and `GateIsExact` says what it then admits.
 */
module EpochFence {
  type SourceKey = string

  // u64 in the source; epochs are only ever compared.
  type Epoch = nat

  const FENCE_CAP: nat := 64

  datatype Start = Start(key: SourceKey, epoch: Epoch)

  datatype Fence = Fence(lastStarted: map<SourceKey, Epoch>, floor: Epoch)

  const EMPTY_FENCE := Fence(map[], 0)

  predicate EpochAdvances(fence: Fence, key: SourceKey, epoch: Epoch) {
    && epoch > fence.floor
    && (key in fence.lastStarted ==> epoch > fence.lastStarted[key])
  }

  predicate IsLowest(entries: map<SourceKey, Epoch>, key: SourceKey) {
    key in entries && forall k :: k in entries ==> entries[key] <= entries[k]
  }

  function Max(a: nat, b: nat): nat {
    if a < b then b else a
  }

  /** The fence after evicting `victim`. */
  function Evict(entries: map<SourceKey, Epoch>, floor: Epoch, victim: SourceKey): Fence
    requires victim in entries
  {
    Fence(entries - {victim}, Max(floor, entries[victim]))
  }

  /** `after` is a possible outcome of committing one start: which of several
      equally old entries is evicted depends on hash order, so it is left open. */
  ghost predicate Commits(fence: Fence, start: Start, after: Fence) {
    var entries := fence.lastStarted[start.key := start.epoch];
    if |entries| <= FENCE_CAP then
      after == Fence(entries, fence.floor)
    else
      exists victim :: IsLowest(entries, victim) && after == Evict(entries, fence.floor, victim)
  }

  // ----- The fence as the source's mutable record -----

  class StartFence {
    var lastStarted: map<SourceKey, Epoch>
    var floor: Epoch

    ghost function View(): Fence
      reads this
    {
      Fence(lastStarted, floor)
    }

    constructor ()
      ensures View() == EMPTY_FENCE
    {
      lastStarted := map[];
      floor := 0;
    }

    method CommitStartEpoch(key: SourceKey, epoch: Epoch)
      modifies this
      ensures Commits(old(View()), Start(key, epoch), View())
    {
      lastStarted := lastStarted[key := epoch];
      if |lastStarted| > FENCE_CAP {
        LowestExists(lastStarted);
        var victim :| IsLowest(lastStarted, victim);
        var evicted := lastStarted[victim];
        lastStarted := lastStarted - {victim};
        floor := Max(floor, evicted);
      }
    }
  }

  lemma {:induction false} LowestExists(entries: map<SourceKey, Epoch>)
    requires entries != map[]
    ensures exists key :: IsLowest(entries, key)
    decreases |entries|
  {
    var key :| key in entries;
    var rest := entries - {key};
    assert rest.Keys == entries.Keys - {key};
    if rest == map[] {
      assert forall k :: k in entries ==> k == key || k in rest;
      assert IsLowest(entries, key);
    } else {
      LowestExists(rest);
      var low :| IsLowest(rest, low);
      assert forall k :: k in entries && k != key ==> k in rest;
      assert IsLowest(entries, if entries[key] <= entries[low] then key else low);
    }
  }

  // ----- The unbounded reference -----

  /** `epoch` is the high-water mark of `key` in a history of honoured starts. */
  ghost predicate Highest(history: seq<Start>, key: SourceKey, epoch: Epoch) {
    && Start(key, epoch) in history
    && forall start :: start in history && start.key == key ==> start.epoch <= epoch
  }

  /** What an unbounded per-key map would admit after `history`. */
  ghost predicate UnboundedAdmits(history: seq<Start>, key: SourceKey, epoch: Epoch) {
    forall start :: start in history && start.key == key ==> start.epoch < epoch
  }

  /** `fence` represents `history`: entries are high-water marks and lie at or
      above the floor, forgotten starts lie at or below it, and the floor itself
      was an honoured epoch. */
  ghost predicate Represents(fence: Fence, history: seq<Start>) {
    && (forall key :: key in fence.lastStarted ==>
          Highest(history, key, fence.lastStarted[key]) && fence.floor <= fence.lastStarted[key])
    && (forall start :: start in history && start.key !in fence.lastStarted ==> start.epoch <= fence.floor)
    && (fence.floor > 0 ==> exists start :: start in history && start.epoch == fence.floor)
  }

  ghost predicate Refines(fence: Fence, history: seq<Start>) {
    |fence.lastStarted| <= FENCE_CAP && Represents(fence, history)
  }

  ghost predicate GatedCommit(fence: Fence, start: Start, after: Fence) {
    EpochAdvances(fence, start.key, start.epoch) && Commits(fence, start, after)
  }

  /** A run of gated commits: `fences[i]` is the fence before `history[i]`. */
  ghost predicate FenceRun(history: seq<Start>, fences: seq<Fence>)
    decreases |history|
  {
    && |fences| == |history| + 1
    && if history == [] then
         fences == [EMPTY_FENCE]
       else
         var n := |history| - 1;
         GatedCommit(fences[n], history[n], fences[n + 1]) && FenceRun(history[..n], fences[..n + 1])
  }

  lemma InsertRepresents(fence: Fence, history: seq<Start>, start: Start)
    requires Represents(fence, history)
    requires EpochAdvances(fence, start.key, start.epoch)
    ensures Represents(Fence(fence.lastStarted[start.key := start.epoch], fence.floor), history + [start])
  {
    var history' := history + [start];
    var entries := fence.lastStarted[start.key := start.epoch];
    AdmittedIsNew(fence, history, start);
    assert start in history' by { assert history'[|history|] == start; }
    forall key | key in entries
      ensures Highest(history', key, entries[key]) && fence.floor <= entries[key]
    {
      if key != start.key {
        assert Highest(history, key, fence.lastStarted[key]);
      }
    }
  }

  lemma EvictRepresents(entries: map<SourceKey, Epoch>, floor: Epoch, history: seq<Start>, victim: SourceKey)
    requires Represents(Fence(entries, floor), history)
    requires IsLowest(entries, victim)
    ensures Represents(Evict(entries, floor, victim), history)
    ensures |Evict(entries, floor, victim).lastStarted| == |entries| - 1
  {
    var after := Evict(entries, floor, victim);
    assert after.lastStarted.Keys == entries.Keys - {victim};
    assert Highest(history, victim, entries[victim]);
    assert Start(victim, entries[victim]) in history;
    assert |entries.Keys - {victim}| == |entries.Keys| - 1;
    assert |after.lastStarted| == |after.lastStarted.Keys|;
    forall s | s in history && s.key !in after.lastStarted
      ensures s.epoch <= after.floor
    {
      assert s.key == victim || s.key !in entries;
    }
  }

  lemma EvictedFits(fence: Fence, start: Start)
    requires |fence.lastStarted| <= FENCE_CAP
    ensures |fence.lastStarted[start.key := start.epoch]| <= FENCE_CAP + 1
  {
    var entries := fence.lastStarted[start.key := start.epoch];
    assert entries.Keys == fence.lastStarted.Keys + {start.key};
    assert |entries.Keys| <= |fence.lastStarted.Keys| + 1;
  }

  lemma {:induction false} CommitRefines(fence: Fence, history: seq<Start>, start: Start, after: Fence)
    requires Refines(fence, history)
    requires EpochAdvances(fence, start.key, start.epoch)
    requires Commits(fence, start, after)
    ensures Refines(after, history + [start])
  {
    var entries := fence.lastStarted[start.key := start.epoch];
    InsertRepresents(fence, history, start);
    EvictedFits(fence, start);
    if |entries| > FENCE_CAP {
      var victim :| IsLowest(entries, victim) && after == Evict(entries, fence.floor, victim);
      EvictRepresents(entries, fence.floor, history + [start], victim);
    }
  }

  /** A gated start exceeds every epoch honoured for its key, remembered or not. */
  lemma {:induction false} AdmittedIsNew(fence: Fence, history: seq<Start>, start: Start)
    requires Represents(fence, history)
    requires EpochAdvances(fence, start.key, start.epoch)
    ensures UnboundedAdmits(history, start.key, start.epoch)
  {
    forall s | s in history && s.key == start.key
      ensures s.epoch < start.epoch
    {
      if s.key in fence.lastStarted {
        assert Highest(history, s.key, fence.lastStarted[s.key]);
      }
    }
  }

  lemma EmptyRefines()
    ensures Refines(EMPTY_FENCE, [])
  {
  }

  lemma LastCommitRefines(history: seq<Start>, fences: seq<Fence>, n: nat)
    requires n + 1 == |history| && |fences| == n + 2
    requires Refines(fences[n], history[..n]) && GatedCommit(fences[n], history[n], fences[n + 1])
    ensures Refines(fences[n + 1], history)
  {
    CommitRefines(fences[n], history[..n], history[n], fences[n + 1]);
    assert history == history[..n] + [history[n]];
  }

  lemma {:induction false} RunRefines(history: seq<Start>, fences: seq<Fence>)
    requires FenceRun(history, fences)
    ensures Refines(fences[|history|], history)
    decreases |history|
  {
    if history == [] {
      EmptyRefines();
    } else {
      var n := |history| - 1;
      RunRefines(history[..n], fences[..n + 1]);
      LastCommitRefines(history, fences, n);
    }
  }

  /** The bounded gate is the unbounded gate strengthened by the floor, and by
      nothing else: it never admits what the unbounded map rejects, and it admits
      every positive epoch above all epochs honoured so far. Epoch zero, which an
      empty unbounded map would admit, is never admitted. */
  lemma {:induction false} GateIsExact(history: seq<Start>, fence: Fence, key: SourceKey, epoch: Epoch)
    requires Refines(fence, history)
    ensures EpochAdvances(fence, key, epoch) <==>
            epoch > fence.floor && UnboundedAdmits(history, key, epoch)
    ensures epoch > 0 && (forall start :: start in history ==> start.epoch < epoch) ==>
              EpochAdvances(fence, key, epoch)
    ensures key !in fence.lastStarted ==>
              forall start :: start in history && start.key == key ==> start.epoch <= fence.floor
  {
    if EpochAdvances(fence, key, epoch) {
      AdmittedIsNew(fence, history, Start(key, epoch));
    }
    if key in fence.lastStarted {
      assert Highest(history, key, fence.lastStarted[key]);
    }
  }

  /** Every run of gated commits, of any length over any keys. */
  lemma {:induction false} FenceNeverWeakerOverRuns(history: seq<Start>, fences: seq<Fence>, key: SourceKey, epoch: Epoch)
    requires FenceRun(history, fences)
    ensures var fence := fences[|history|];
            && |fence.lastStarted| <= FENCE_CAP
            && (EpochAdvances(fence, key, epoch) <==> epoch > fence.floor && UnboundedAdmits(history, key, epoch))
            && (epoch > 0 && (forall start :: start in history ==> start.epoch < epoch) ==>
                  EpochAdvances(fence, key, epoch))
  {
    RunRefines(history, fences);
    GateIsExact(history, fences[|history|], key, epoch);
  }

  /** A start that is admitted can always be committed, so every run can go on with any
      start above all those honoured. */
  lemma RunsGoOn(history: seq<Start>, fences: seq<Fence>, start: Start) returns (after: Fence)
    requires FenceRun(history, fences) && start.epoch > 0 && forall s :: s in history ==> s.epoch < start.epoch
    ensures FenceRun(history + [start], fences + [after])
  {
    var n := |history|;
    var fence := fences[n];
    RunRefines(history, fences);
    GateIsExact(history, fence, start.key, start.epoch);
    var entries := fence.lastStarted[start.key := start.epoch];
    if |entries| <= FENCE_CAP {
      after := Fence(entries, fence.floor);
    } else {
      LowestExists(entries);
      var victim :| IsLowest(entries, victim);
      after := Evict(entries, fence.floor, victim);
    }
    assert (history + [start])[..n] == history && (fences + [after])[..n + 1] == fences;
  }
}
