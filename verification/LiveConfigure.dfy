/**
 Reconciling the configured sources with the requested ones
 (desktop/src/effect/LiveConnection.ts, configure and retargetAll), as the code
 does it under the service mutex: loops over the entry map. Supervisors are
 identified by number; the finalizers of interrupted ones are LiveService's
 concern.
 */
module LiveConfigure {
  import opened Options
  import LiveService

  type Key = string
  type Settings = Option<string> // a source may have none
  type SupId = nat

  datatype Wish = On | Off | Carry

  datatype Input = Input(key: Key, wish: Wish, settings: Settings)

  datatype Target = Target(gen: nat, enabled: bool, settings: Settings, autoStart: bool)

  datatype Entry = Entry(target: Target, sup: SupId)

  // What a configure call changes: the entries, the supervisors it interrupted,
  // the keys whose state it reset, and the next supervisor number.
  datatype Config = Config(entries: map<Key, Entry>, interrupted: set<SupId>, resets: seq<Key>, nextSup: SupId)

  // ----- What a configure call is for -----

  predicate Requested(inputs: seq<Input>, key: Key) {
    exists input :: input in inputs && input.key == key
  }

  /** The input for a key; a later one overrides an earlier one. */
  function Latest(inputs: seq<Input>, key: Key): (input: Input)
    requires Requested(inputs, key)
    ensures input in inputs && input.key == key
  {
    var n := |inputs| - 1;
    if inputs[n].key == key then inputs[n] else Latest(inputs[..n], key)
  }

  function EnabledBy(wish: Wish, current: bool): bool {
    match wish
    case On => true
    case Off => false
    case Carry => current
  }

  /** A target moves to a new generation only on a real flip. */
  function Retargeted(target: Target, input: Input): Target {
    var enabled := EnabledBy(input.wish, target.enabled);
    if enabled == target.enabled then target else Target(target.gen + 1, enabled, input.settings, false)
  }

  function FirstTarget(input: Input): Target {
    Target(0, EnabledBy(input.wish, false), input.settings, false)
  }

  /** `after` is `before` reconciled to the inputs: exactly the requested keys are
      configured, kept ones keep their supervisor, added ones get a clean state and
      a supervisor nobody had, and dropped ones are interrupted. */
  ghost predicate Reconciled(before: Config, inputs: seq<Input>, after: Config) {
    && (forall key :: key in after.entries <==> Requested(inputs, key))
    && (forall key :: key in after.entries && key in before.entries ==>
                        after.entries[key] == Rearmed(before.entries[key], Latest(inputs, key)))
    && after.interrupted == before.interrupted + DroppedSups(before.entries, inputs)
    && before.resets <= after.resets
    && Adds(before, inputs, after.resets[|before.resets|..], after)
    && (forall key :: Requested(inputs, key) && key !in before.entries ==> key in after.resets[|before.resets|..])
  }

  function Rearmed(entry: Entry, input: Input): Entry {
    Entry(Retargeted(entry.target, input), entry.sup)
  }

  ghost function DroppedSups(entries: map<Key, Entry>, inputs: seq<Input>): set<SupId> {
    set key | key in entries && !Requested(inputs, key) :: entries[key].sup
  }

  /** The i-th added key is new, and its supervisor is the i-th fresh one. */
  ghost predicate Adds(before: Config, inputs: seq<Input>, added: seq<Key>, after: Config) {
    && after.nextSup == before.nextSup + |added|
    && (forall i :: 0 <= i < |added| ==>
                      && added[i] !in before.entries && Requested(inputs, added[i]) && added[i] in after.entries
                      && after.entries[added[i]] == Entry(FirstTarget(Latest(inputs, added[i])), before.nextSup + i))
  }

  // ----- The calls -----

  class LiveConfiguration {
    var entries: map<Key, Entry>
    var interrupted: set<SupId>
    var resets: seq<Key>
    var nextSup: SupId

    constructor ()
      ensures Snapshot() == Config(map[], {}, [], 0)
    {
      entries, interrupted, resets, nextSup := map[], {}, [], 0;
    }

    function Snapshot(): Config
      reads this
    {
      Config(entries, interrupted, resets, nextSup)
    }

    method Configure(inputs: seq<Input>)
      modifies this
      ensures Reconciled(old(Snapshot()), inputs, Snapshot())
    {
      var next, order := IndexInputs(inputs);
      InterruptDropped(next, inputs);
      ghost var kept := Snapshot();
      VisitRequested(next, order, inputs);
      VisitedAll(old(Snapshot()), inputs, order, kept, Snapshot());
    }

    /** Re-arms the kept sources whose gate flips, and adds the new ones. */
    method VisitRequested(next: map<Key, Input>, order: seq<Key>, ghost inputs: seq<Input>)
      requires forall key :: key in order ==> key in next && Requested(inputs, key) && next[key] == Latest(inputs, key)
      requires forall key :: key in entries ==> Requested(inputs, key)
      requires forall i, j :: 0 <= i < j < |order| ==> order[i] != order[j]
      modifies this`entries, this`resets, this`nextSup
      ensures Visited(old(Snapshot()), inputs, order, Snapshot())
    {
      ghost var kept := Snapshot();
      for i := 0 to |order|
        invariant Visited(kept, inputs, order[..i], Snapshot())
      {
        var key := order[i];
        var input := next[key];
        assert order[..i + 1] == order[..i] + [key];
        ghost var now := Snapshot();
        if key in entries {
          VisitKept(kept, inputs, order[..i], now, key);
          entries := entries[key := Rearmed(entries[key], input)];
        } else {
          VisitNew(kept, inputs, order[..i], now, key);
          resets := resets + [key];
          entries := entries[key := Entry(FirstTarget(input), nextSup)];
          nextSup := nextSup + 1;
        }
      }
      assert order[..|order|] == order;
    }

    /** Removes and interrupts every entry that is not requested. */
    method InterruptDropped(next: map<Key, Input>, ghost inputs: seq<Input>)
      requires forall key :: key in next <==> Requested(inputs, key)
      modifies this`entries, this`interrupted
      ensures entries == map key | key in old(entries) && Requested(inputs, key) :: old(entries)[key]
      ensures interrupted == old(interrupted) + DroppedSups(old(entries), inputs)
    {
      var todo := entries.Keys;
      while todo != {}
        invariant todo <= entries.Keys <= old(entries).Keys
        invariant forall key :: key in entries ==> entries[key] == old(entries)[key]
        invariant forall key :: key in old(entries) && Requested(inputs, key) ==> key in entries
        invariant forall key :: key in entries && key !in todo ==> Requested(inputs, key)
        invariant interrupted == old(interrupted) + set key | key in old(entries) && key !in entries :: old(entries)[key].sup
      {
        var key :| key in todo;
        todo := todo - {key};
        if key !in next {
          interrupted := interrupted + {entries[key].sup};
          entries := entries - {key};
        }
      }
    }

    /** Each listed source that is configured re-arms once, even if listed twice;
        the others are left alone. */
    method RetargetAll(keys: seq<Key>, autoStart: bool)
      modifies this`entries
      ensures entries == map key | key in old(entries) ::
                           if key in keys then Again(old(entries)[key], autoStart) else old(entries)[key]
    {
      var todo := set key | key in keys;
      while todo != {}
        invariant forall key :: key in todo ==> key in keys
        invariant entries.Keys == old(entries).Keys
        invariant forall key :: key in entries ==>
                                  entries[key] == if key in keys && key !in todo then Again(old(entries)[key], autoStart)
                                                  else old(entries)[key]
      {
        var key :| key in todo;
        todo := todo - {key};
        if key in entries {
          entries := entries[key := Again(entries[key], autoStart)];
        }
      }
    }
  }

  function Bumped(target: Target, autoStart: bool): Target {
    target.(gen := target.gen + 1, autoStart := autoStart)
  }

  function Again(entry: Entry, autoStart: bool): Entry {
    Entry(Bumped(entry.target, autoStart), entry.sup)
  }

  /** The keyed inputs and the order in which their keys first appeared. */
  method IndexInputs(inputs: seq<Input>) returns (next: map<Key, Input>, order: seq<Key>)
    ensures forall key :: key in next <==> Requested(inputs, key)
    ensures forall key :: key in next ==> next[key] == Latest(inputs, key)
    ensures forall key :: key in order <==> key in next
    ensures forall i, j :: 0 <= i < j < |order| ==> order[i] != order[j]
  {
    next, order := map[], [];
    for i := 0 to |inputs|
      invariant forall key :: key in next <==> Requested(inputs[..i], key)
      invariant forall key :: key in next ==> next[key] == Latest(inputs[..i], key)
      invariant forall key :: key in order <==> key in next
      invariant forall j, k :: 0 <= j < k < |order| ==> order[j] != order[k]
    {
      var input := inputs[i];
      forall key
        ensures Requested(inputs[..i + 1], key) <==> Requested(inputs[..i], key) || key == input.key
        ensures Requested(inputs[..i + 1], key) ==>
                  Latest(inputs[..i + 1], key) == if key == input.key then input else Latest(inputs[..i], key)
      {
        RequestedSnoc(inputs, i, key);
      }
      if input.key !in next {
        order := order + [input.key];
      }
      next := next[input.key := input];
    }
    assert inputs[..|inputs|] == inputs;
  }

  lemma RequestedSnoc(inputs: seq<Input>, i: nat, key: Key)
    requires i < |inputs|
    ensures Requested(inputs[..i + 1], key) <==> Requested(inputs[..i], key) || key == inputs[i].key
    ensures Requested(inputs[..i + 1], key) ==>
              Latest(inputs[..i + 1], key) == if key == inputs[i].key then inputs[i] else Latest(inputs[..i], key)
  {
    assert inputs[..i + 1] == inputs[..i] + [inputs[i]];
    assert inputs[..i + 1][..i] == inputs[..i];
  }

  /** Between two turns of the second loop: the keys in `done` are dealt with. */
  ghost predicate Visited(kept: Config, inputs: seq<Input>, done: seq<Key>, now: Config) {
    && EntriesVisited(kept.entries, inputs, done, now.entries)
    && kept.resets <= now.resets
    && Adds(kept, inputs, now.resets[|kept.resets|..], now)
    && (forall key :: key in done && key !in kept.entries ==> key in now.resets[|kept.resets|..])
  }

  ghost predicate EntriesVisited(kept: map<Key, Entry>, inputs: seq<Input>, done: seq<Key>, now: map<Key, Entry>) {
    && (forall key :: key in done || key in kept ==> Requested(inputs, key))
    && (forall key :: key in now <==> key in kept || key in done)
    && (forall key :: key in kept ==>
                        now[key] == if key in done then Rearmed(kept[key], Latest(inputs, key)) else kept[key])
  }

  lemma EntryVisited(kept: map<Key, Entry>, inputs: seq<Input>, done: seq<Key>, now: map<Key, Entry>, key: Key, entry: Entry)
    requires EntriesVisited(kept, inputs, done, now) && Requested(inputs, key)
    requires key in kept ==> entry == Rearmed(kept[key], Latest(inputs, key))
    ensures EntriesVisited(kept, inputs, done + [key], now[key := entry])
  {
  }

  lemma VisitKept(kept: Config, inputs: seq<Input>, done: seq<Key>, now: Config, key: Key)
    requires Visited(kept, inputs, done, now) && key !in done && key in now.entries && Requested(inputs, key)
    ensures Visited(kept, inputs, done + [key],
                    now.(entries := now.entries[key := Rearmed(now.entries[key], Latest(inputs, key))]))
  {
    var entry := Rearmed(now.entries[key], Latest(inputs, key));
    EntryVisited(kept.entries, inputs, done, now.entries, key, entry);
    AddsFrame(kept, inputs, now.resets[|kept.resets|..], now, now.(entries := now.entries[key := entry]));
  }

  lemma VisitNew(kept: Config, inputs: seq<Input>, done: seq<Key>, now: Config, key: Key)
    requires Visited(kept, inputs, done, now) && key !in done && key !in now.entries && Requested(inputs, key)
    ensures Visited(kept, inputs, done + [key],
                    now.(entries := now.entries[key := Entry(FirstTarget(Latest(inputs, key)), now.nextSup)],
                    resets := now.resets + [key], nextSup := now.nextSup + 1))
  {
    var n := |kept.resets|;
    assert (now.resets + [key])[n..] == now.resets[n..] + [key];
    EntryVisited(kept.entries, inputs, done, now.entries, key, Entry(FirstTarget(Latest(inputs, key)), now.nextSup));
  }

  lemma AddsFrame(before: Config, inputs: seq<Input>, added: seq<Key>, now: Config, now': Config)
    requires Adds(before, inputs, added, now) && now'.nextSup == now.nextSup
    requires forall key :: key in now.entries && key !in before.entries ==>
                             key in now'.entries && now'.entries[key] == now.entries[key]
    ensures Adds(before, inputs, added, now')
  {
  }

  lemma VisitedAll(before: Config, inputs: seq<Input>, order: seq<Key>, kept: Config, after: Config)
    requires forall key :: key in order <==> Requested(inputs, key)
    requires kept.entries == map key | key in before.entries && Requested(inputs, key) :: before.entries[key]
    requires kept.resets == before.resets && kept.nextSup == before.nextSup
    requires kept.interrupted == after.interrupted == before.interrupted + DroppedSups(before.entries, inputs)
    requires Visited(kept, inputs, order, after)
    ensures Reconciled(before, inputs, after)
  {
  }

  lemma AddsOnlyNew(before: Config, inputs: seq<Input>, added: seq<Key>, after: Config)
    requires Adds(before, inputs, added, after)
    ensures forall key :: key in added ==> key !in before.entries && Requested(inputs, key)
  {
  }

  lemma SomeMember(keys: seq<Key>)
    ensures keys == [] || exists key :: key in keys
  {
    if keys != [] {
      assert keys[0] in keys;
    }
  }

  // ----- What it means to callers -----

  /** Asking for the same sources again changes nothing at all: no supervisor is
      re-armed, interrupted or reset. */
  lemma ConfigureAgainIsInert(first: Config, inputs: seq<Input>, second: Config, third: Config)
    requires Reconciled(first, inputs, second) && Reconciled(second, inputs, third)
    ensures third == second
  {
    forall key | key in second.entries
      ensures key in third.entries && third.entries[key] == second.entries[key]
    {
    }
    assert DroppedSups(second.entries, inputs) == {};
    var added := third.resets[|second.resets|..];
    AddsOnlyNew(second, inputs, added, third);
    SomeMember(added);
    assert third.resets == second.resets + added;
    assert third.entries == second.entries;
  }

  lemma {:induction false} LatestIsTheLast(inputs: seq<Input>, i: nat)
    requires i < |inputs| && forall j :: i < j < |inputs| ==> inputs[j].key != inputs[i].key
    ensures Requested(inputs, inputs[i].key) && Latest(inputs, inputs[i].key) == inputs[i]
    decreases |inputs|
  {
    var n := |inputs| - 1;
    assert inputs[i] in inputs;
    if i < n {
      assert inputs[..n][i] == inputs[i];
      LatestIsTheLast(inputs[..n], i);
    }
  }

  /** What the last input for a key asks for holds afterwards: its gate is on, off, or as
      it was, and off for a new key with nothing to carry. A new source and a flipped one
      have the settings given and do not auto-start. */
  lemma ConfigureEnforcesWishes(before: Config, inputs: seq<Input>, after: Config, i: nat)
    requires Reconciled(before, inputs, after)
    requires i < |inputs| && forall j :: i < j < |inputs| ==> inputs[j].key != inputs[i].key
    ensures var (input, kept) := (inputs[i], inputs[i].key in before.entries);
            input.key in after.entries
            && var now := after.entries[input.key].target;
            && (input.wish.On? ==> now.enabled) && (input.wish.Off? ==> !now.enabled)
            && (input.wish.Carry? ==> now.enabled == (kept && before.entries[input.key].target.enabled))
            && (!kept || now.enabled != before.entries[input.key].target.enabled ==> now.settings == input.settings && !now.autoStart)
            && (!kept ==> now.gen == 0)
            && (kept ==> after.entries[input.key].sup == before.entries[input.key].sup)
  {
    LatestIsTheLast(inputs, i);
  }

  /** Re-arming a source keeps its gate, settings and supervisor, and auto-starts as
      asked. */
  lemma AgainKeepsTheSource(entry: Entry, autoStart: bool)
    ensures var again := Again(entry, autoStart);
            && again.sup == entry.sup && again.target.gen == entry.target.gen + 1 && again.target.autoStart == autoStart
            && again.target.enabled == entry.target.enabled && again.target.settings == entry.target.settings
  {
  }

  /** A supervisor that stays registered for its key re-arms exactly when its
      source's gate flips, and no configure call ever leaves it auto-starting unless
      it already was, on the very same target. */
  lemma ConfigureRearmsOnlyFlips(before: Config, inputs: seq<Input>, after: Config, key: Key)
    requires Reconciled(before, inputs, after) && key in before.entries && key in after.entries
    ensures var (was, now) := (before.entries[key].target, after.entries[key].target);
            && (now.gen != was.gen <==> now.enabled != was.enabled)
            && (now.gen == was.gen ==> now == was)
            && (now.autoStart ==> now == was)
            && (Latest(inputs, key).wish.Carry? ==> now == was)
  {
    assert Requested(inputs, key);
  }

  // ----- The same targets as in the service's state machine -----

  function Abstract(t: Target): LiveService.Target {
    LiveService.Target(t.gen, t.enabled, t.settings.Some?, t.autoStart)
  }

  function TargetOf(s: LiveService.System, key: Key): LiveService.Target
    requires LiveService.CanRetarget(s, key)
  {
    s.sups[s.entries[key]].target
  }

  /** What the loops do to an entry's target is what the service's steps do to its
      supervisor's: for a kept key and for a listed key. */
  lemma LoopsMoveTargetsAsSteps(s: LiveService.System, key: Key, t: Target, input: Input, autoStart: bool)
    requires LiveService.CanRetarget(s, key) && TargetOf(s, key) == Abstract(t)
    ensures var kept := LiveService.DoSetEnabled(s, key, EnabledBy(input.wish, t.enabled), input.settings.Some?);
            LiveService.CanRetarget(kept, key) && TargetOf(kept, key) == Abstract(Retargeted(t, input))
    ensures var listed := LiveService.DoRetarget(s, key, autoStart);
            LiveService.CanRetarget(listed, key) && TargetOf(listed, key) == Abstract(Bumped(t, autoStart))
  {
  }

  /** And for an added key. */
  lemma LoopsAddTargetsAsSteps(s: LiveService.System, input: Input)
    requires LiveService.CanReset(s, input.key)
    ensures var (first, reset) := (FirstTarget(input), LiveService.DoReset(s, input.key));
            var added := LiveService.DoRegister(LiveService.DoFork(reset, first.enabled, first.settings.Some?));
            LiveService.CanRetarget(added, input.key) && TargetOf(added, input.key) == Abstract(first)
  {
  }
}
