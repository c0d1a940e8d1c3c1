/**
 What every interleaving of the live-connection service keeps: whose rows a
 source shows, which states survive, when a daemon may be started, and which
 frames can still matter.
 */
module LiveServiceSafety {
  import opened Options
  import opened SubscribeWorker
  import opened LiveFrames
  import opened LiveService

  // ----- Ownership -----

  /** The one supervisor that may write a key's state: the registered one, or the
      one being added. */
  function Owner(s: System, key: Key): Option<SupId> {
    if key in s.entries then Some(s.entries[key])
    else if s.adding.Forked? && s.adding.key == key then Some(s.adding.sup)
    else None
  }

  ghost predicate OwnerInv(s: System) {
    && (forall key :: key in s.entries ==> s.entries[key] in s.sups)
    && (s.adding.Forked? ==> s.adding.sup in s.sups)
    && (!s.adding.NotAdding? ==> s.adding.key !in s.entries)
    && (forall id :: id in s.sups ==> id < s.nextSup)
    && (forall key, id :: Owner(s, key) == Some(id) ==> Alive(s, id) && s.sups[id].key == key)
    && (forall id :: Alive(s, id) ==> Owner(s, s.sups[id].key) == Some(id))
  }

  /** Rows shown for a key carry that key and come from its current owner. */
  ghost predicate RowsOk(s: System, key: Key)
    requires key in s.states
  {
    && RowsAreOwn(s.states[key], key)
    && (s.states[key].rows != [] ==>
          && s.adding != StateReset(key)
          && key in s.producers
          && (Owner(s, key).Some? ==> Owner(s, key) == Some(s.producers[key])))
  }

  ghost predicate RowsInv(s: System) {
    forall key :: key in s.states ==> RowsOk(s, key)
  }

  predicate IsDyingFor(s: System, id: SupId, key: Key) {
    id in s.sups && s.sups[id].dying && s.sups[id].key == key
  }

  /** A state entry has an owner, or one is being added, or its last owner has yet
      to drop it. */
  ghost predicate Justified(s: System, key: Key) {
    || key in s.entries
    || (!s.adding.NotAdding? && s.adding.key == key)
    || exists id :: IsDyingFor(s, id, key)
  }

  ghost predicate StatesInv(s: System) {
    forall key :: key in s.states ==> Justified(s, key)
  }

  // A supervisor's own step: it moves itself and may write its own key's state,
  // keeping the rows, clearing them, or storing rows it produced.
  ghost predicate OwnStep(s: System, id: SupId, s': System) {
    && Alive(s, id) && Alive(s', id)
    && s'.entries == s.entries && s'.adding == s.adding && s'.nextSup == s.nextSup
    && s'.sups.Keys == s.sups.Keys
    && s'.sups[id].key == s.sups[id].key
    && (forall other :: other in s.sups && other != id ==> s'.sups[other] == s.sups[other])
    && OwnWrite(s, s.sups[id].key, id, s')
  }

  ghost predicate OwnWrite(s: System, key: Key, id: SupId, s': System) {
    || (s'.states == s.states && s'.producers == s.producers)
    || (key in s'.states && s'.states == s.states[key := s'.states[key]] && NewStateOk(s, key, id, s', s'.states[key]))
  }

  ghost predicate NewStateOk(s: System, key: Key, id: SupId, s': System, next: LiveState) {
    var before := StateFor(s, key);
    || (next.rows == [] && s'.producers == s.producers)
    || (next.rows == before.rows && next.rowsRunnerKey == before.rowsRunnerKey && s'.producers == s.producers)
    || (next.rowsRunnerKey == Some(key) && s'.producers == s.producers[key := id])
  }

  lemma OwnStepKeepsOwners(s: System, id: SupId, s': System)
    requires OwnerInv(s) && OwnStep(s, id, s')
    ensures OwnerInv(s')
  {
    assert forall key :: Owner(s', key) == Owner(s, key);
    assert forall other :: Alive(s', other) <==> Alive(s, other);
  }

  lemma OwnStepKeepsRows(s: System, id: SupId, s': System)
    requires OwnerInv(s) && RowsInv(s) && OwnStep(s, id, s')
    ensures RowsInv(s')
  {
    var key := s.sups[id].key;
    assert Owner(s, key) == Some(id);
    forall k | k in s'.states
      ensures RowsOk(s', k)
    {
      assert Owner(s', k) == Owner(s, k);
      if k in s.states {
        assert RowsOk(s, k);
      }
    }
  }

  lemma OwnStepKeepsStates(s: System, id: SupId, s': System)
    requires OwnerInv(s) && StatesInv(s) && OwnStep(s, id, s')
    ensures StatesInv(s')
  {
    var key := s.sups[id].key;
    assert Owner(s, key) == Some(id);
    forall k | k in s'.states
      ensures Justified(s', k)
    {
      if k != key {
        assert Justified(s, k);
        if exists d :: IsDyingFor(s, d, k) {
          var d :| IsDyingFor(s, d, k);
          assert IsDyingFor(s', d, k);
        }
      }
    }
  }

  ghost predicate DisplayInv(s: System) {
    OwnerInv(s) && RowsInv(s) && StatesInv(s)
  }

  lemma OwnStepKeepsDisplay(s: System, id: SupId, s': System)
    requires DisplayInv(s) && OwnStep(s, id, s')
    ensures DisplayInv(s')
  {
    OwnStepKeepsOwners(s, id, s');
    OwnStepKeepsRows(s, id, s');
    OwnStepKeepsStates(s, id, s');
  }

  /** Steps by which a supervisor, or a retarget of it, changes only what it owns. */
  predicate IsOwnStep(step: Step) {
    step.Pick? || step.Try? || step.StartReturn? || step.TakeFrame? || step.Settle? || step.Rearm? || step.ParkFatal?
  }

  lemma MoveIsOwn(s: System, id: SupId, sup: Sup, s': System)
    requires Alive(s, id) && sup.key == s.sups[id].key && !sup.dying
    requires s'.entries == s.entries && s'.adding == s.adding && s'.nextSup == s.nextSup
    requires s'.sups == s.sups[id := sup]
    requires OwnWrite(s, sup.key, id, s')
    ensures OwnStep(s, id, s')
  {
  }

  lemma WriteIsOwn(s: System, id: SupId, sup: Sup, state: LiveState)
    requires Alive(s, id) && sup.key == s.sups[id].key && !sup.dying
    requires var before := StateFor(s, sup.key);
             state.rows == [] || (state.rows == before.rows && state.rowsRunnerKey == before.rowsRunnerKey)
    ensures OwnStep(s, id, WithSupAndState(s, id, sup, state))
  {
    MoveIsOwn(s, id, sup, WithSupAndState(s, id, sup, state));
  }

  lemma PickIsOwn(s: System, id: SupId, skipped: nat)
    requires CanPick(s, id, skipped)
    ensures OwnStep(s, id, DoPick(s, id, skipped))
  {
    var s' := DoPick(s, id, skipped);
    MoveIsOwn(s, id, s'.sups[id], s');
  }

  lemma AttemptIsOwn(s: System, id: SupId, persists: bool)
    requires CanAttempt(s, id)
    ensures OwnStep(s, id, DoAttempt(s, id, persists))
  {
    var s' := DoAttempt(s, id, persists);
    MoveIsOwn(s, id, s'.sups[id], s');
  }

  lemma StartReturnIsOwn(s: System, id: SupId, failure: Option<string>)
    requires CanStartReturn(s, id)
    ensures OwnStep(s, id, DoStartReturn(s, id, failure))
  {
    var s' := DoStartReturn(s, id, failure);
    MoveIsOwn(s, id, s'.sups[id], s');
  }

  lemma FrameWrites(s: System, id: SupId, key: Key, epoch: int, event: Event, patterns: Patterns)
    requires CanTakeFrame(s, id) && IsForRun(s.sups[id], key, epoch)
    ensures OwnWrite(s, key, id, DoTakeFrame(s, id, key, epoch, event, patterns))
  {
  }

  lemma TakeFrameIsOwn(s: System, id: SupId, key: Key, epoch: int, event: Event, patterns: Patterns)
    requires CanTakeFrame(s, id)
    ensures OwnStep(s, id, DoTakeFrame(s, id, key, epoch, event, patterns))
  {
    var s' := DoTakeFrame(s, id, key, epoch, event, patterns);
    if IsForRun(s.sups[id], key, epoch) {
      FrameWrites(s, id, key, epoch, event, patterns);
      MoveIsOwn(s, id, s'.sups[id], s');
    }
  }

  lemma SettleIsOwn(s: System, id: SupId)
    requires CanSettle(s, id)
    ensures OwnStep(s, id, DoSettle(s, id))
  {
    var s' := DoSettle(s, id);
    WriteIsOwn(s, id, s'.sups[id], s'.states[s.sups[id].key]);
  }

  lemma OwnStepsAreOwn(s: System, step: Step)
    requires IsOwnStep(step) && Enabled(s, step)
    ensures OwnStep(s, step.sup, Apply(s, step))
  {
    match step {
      case Pick(id, skipped) => PickIsOwn(s, id, skipped);
      case Try(id, persists) => AttemptIsOwn(s, id, persists);
      case StartReturn(id, failure) => StartReturnIsOwn(s, id, failure);
      case TakeFrame(id, key, epoch, event, patterns) => TakeFrameIsOwn(s, id, key, epoch, event, patterns);
      case Settle(id) => SettleIsOwn(s, id);
      case Rearm(id) => MoveIsOwn(s, id, s.sups[id].(run := Arming(false)), DoRearm(s, id));
      case ParkFatal(id, message) =>
        WriteIsOwn(s, id, s.sups[id].(run := Parked), LiveState(StFatal(message), [], None));
    }
  }

  // ----- Steps that change who owns a key -----

  lemma RemoveKeepsOwners(s: System, key: Key)
    requires OwnerInv(s) && CanRemove(s, key)
    ensures OwnerInv(DoRemove(s, key))
  {
    var s' := DoRemove(s, key);
    var id := s.entries[key];
    assert Owner(s, key) == Some(id);
    assert forall k :: Owner(s', k) == if k == key then None else Owner(s, k);
    assert forall other :: Alive(s', other) <==> Alive(s, other) && other != id;
  }

  lemma RemoveKeepsDisplay(s: System, key: Key)
    requires DisplayInv(s) && CanRemove(s, key)
    ensures DisplayInv(DoRemove(s, key))
  {
    var s' := DoRemove(s, key);
    var id := s.entries[key];
    RemoveKeepsOwners(s, key);
    assert Owner(s, key) == Some(id);
    assert IsDyingFor(s', id, key);
    forall k | k in s'.states
      ensures RowsOk(s', k) && Justified(s', k)
    {
      assert RowsOk(s, k) && Justified(s, k);
      if exists d :: IsDyingFor(s, d, k) {
        var d :| IsDyingFor(s, d, k);
        assert IsDyingFor(s', d, k);
      }
    }
  }

  lemma ResetKeepsDisplay(s: System, key: Key)
    requires DisplayInv(s) && CanReset(s, key)
    ensures DisplayInv(DoReset(s, key))
  {
    var s' := DoReset(s, key);
    assert forall k :: Owner(s', k) == Owner(s, k);
    forall k | k in s'.states
      ensures RowsOk(s', k) && Justified(s', k)
    {
      if k != key {
        assert RowsOk(s, k) && Justified(s, k);
        if exists d :: IsDyingFor(s, d, k) {
          var d :| IsDyingFor(s, d, k);
          assert IsDyingFor(s', d, k);
        }
      }
    }
  }

  lemma ForkKeepsDisplay(s: System, enabled: bool, hasSettings: bool)
    requires DisplayInv(s) && s.adding.StateReset?
    ensures DisplayInv(DoFork(s, enabled, hasSettings))
  {
    var s' := DoFork(s, enabled, hasSettings);
    var key, id := s.adding.key, s.nextSup;
    assert Owner(s, key) == None;
    assert forall k :: Owner(s', k) == if k == key then Some(id) else Owner(s, k);
    assert forall other :: Alive(s', other) <==> Alive(s, other) || other == id;
    forall k | k in s'.states
      ensures RowsOk(s', k) && Justified(s', k)
    {
      assert RowsOk(s, k) && Justified(s, k);
      if exists d :: IsDyingFor(s, d, k) {
        var d :| IsDyingFor(s, d, k);
        assert IsDyingFor(s', d, k);
      }
    }
  }

  lemma RegisterKeepsDisplay(s: System)
    requires DisplayInv(s) && s.adding.Forked?
    ensures DisplayInv(DoRegister(s))
  {
    var s' := DoRegister(s);
    assert forall k :: Owner(s', k) == Owner(s, k);
    forall k | k in s'.states
      ensures RowsOk(s', k) && Justified(s', k)
    {
      assert RowsOk(s, k) && Justified(s, k);
      if exists d :: IsDyingFor(s, d, k) {
        var d :| IsDyingFor(s, d, k);
        assert IsDyingFor(s', d, k);
      }
    }
  }

  lemma DropKeepsOwner(s: System, id: SupId, key: Key)
    requires CanDrop(s, id)
    ensures Owner(DoDrop(s, id), key) == Owner(s, key)
  {
  }

  lemma DropKeepsOwners(s: System, id: SupId)
    requires OwnerInv(s) && CanDrop(s, id)
    ensures OwnerInv(DoDrop(s, id))
    ensures forall k :: Owner(DoDrop(s, id), k) == Owner(s, k)
  {
    var s' := DoDrop(s, id);
    forall k
      ensures Owner(s', k) == Owner(s, k) && Owner(s, k) != Some(id)
    {
      DropKeepsOwner(s, id, k);
    }
    assert s'.sups.Keys == s.sups.Keys - {id};
    assert forall other :: Alive(s', other) <==> Alive(s, other);
    assert s.adding.Forked? ==> Owner(s, s.adding.key) == Some(s.adding.sup);
    assert forall key :: key in s.entries ==> Owner(s, key) == Some(s.entries[key]);
  }

  /** The finalizer of a dying supervisor, at whatever point it runs. */
  lemma DropKeepsDisplay(s: System, id: SupId)
    requires DisplayInv(s) && CanDrop(s, id)
    ensures DisplayInv(DoDrop(s, id))
  {
    var s' := DoDrop(s, id);
    DropKeepsOwners(s, id);
    forall k | k in s'.states
      ensures RowsOk(s', k) && Justified(s', k)
    {
      assert RowsOk(s, k) && Justified(s, k);
      if exists d :: IsDyingFor(s, d, k) {
        var d :| IsDyingFor(s, d, k);
        assert k == s.sups[id].key ==> k in s.entries;
        assert d != id ==> IsDyingFor(s', d, k);
      }
    }
  }

  /** A new target for a running supervisor: no state is written. */
  lemma RetargetIsOwn(s: System, key: Key, autoStart: bool)
    requires OwnerInv(s) && CanRetarget(s, key)
    ensures OwnStep(s, s.entries[key], DoRetarget(s, key, autoStart))
  {
    assert Owner(s, key) == Some(s.entries[key]);
  }

  lemma SetEnabledIsOwn(s: System, key: Key, enabled: bool, hasSettings: bool)
    requires OwnerInv(s) && CanSetEnabled(s, key)
    ensures OwnStep(s, s.entries[key], DoSetEnabled(s, key, enabled, hasSettings))
  {
    assert Owner(s, key) == Some(s.entries[key]);
  }

  lemma StepKeepsDisplay(s: System, step: Step)
    requires DisplayInv(s) && Enabled(s, step)
    ensures DisplayInv(Apply(s, step))
  {
    if IsOwnStep(step) {
      OwnStepsAreOwn(s, step);
      OwnStepKeepsDisplay(s, step.sup, Apply(s, step));
    } else {
      match step {
        case Remove(key) => RemoveKeepsDisplay(s, key);
        case Reset(key) => ResetKeepsDisplay(s, key);
        case Fork(enabled, hasSettings) => ForkKeepsDisplay(s, enabled, hasSettings);
        case Register => RegisterKeepsDisplay(s);
        case Drop(id) => DropKeepsDisplay(s, id);
        case Retarget(key, autoStart) =>
          RetargetIsOwn(s, key, autoStart);
          OwnStepKeepsDisplay(s, s.entries[key], Apply(s, step));
        case SetEnabled(key, enabled, hasSettings) =>
          SetEnabledIsOwn(s, key, enabled, hasSettings);
          OwnStepKeepsDisplay(s, s.entries[key], Apply(s, step));
        case Reload(now) =>
      }
    }
  }

  lemma {:induction false} RunKeepsDisplay(s: System, run: seq<Step>, s': System)
    requires DisplayInv(s) && Leads(s, run, s')
    ensures DisplayInv(s')
    decreases |run|
  {
    if run != [] {
      StepKeepsDisplay(s, run[0]);
      RunKeepsDisplay(Apply(s, run[0]), run[1..], s');
    }
  }

  /** However configure calls and dying supervisors interleave: the rows read for a
      configured key, re-added or not, were produced by the supervisor registered
      now, under this key. */
  lemma ShownRowsAreTheOwners(now: int, stored: Option<int>, run: seq<Step>, s: System, key: Key)
    requires Leads(FirstPage(now, stored), run, s)
    ensures RowsAreOwn(StateFor(s, key), key)
    ensures key in s.entries && StateFor(s, key).rows != [] ==>
              key in s.producers && s.producers[key] == s.entries[key]
    ensures s.adding == StateReset(key) ==> StateFor(s, key).rows == []
  {
    RunKeepsDisplay(FirstPage(now, stored), run, s);
    if key in s.states {
      assert RowsOk(s, key);
    }
  }

  /** Once no supervisor is dying and no key is being added, only configured keys
      have a state. */
  lemma QuietStatesAreConfigured(now: int, stored: Option<int>, run: seq<Step>, s: System)
    requires Leads(FirstPage(now, stored), run, s)
    requires s.adding.NotAdding? && forall id :: id in s.sups ==> !s.sups[id].dying
    ensures forall key :: key in s.states ==> key in s.entries
  {
    RunKeepsDisplay(FirstPage(now, stored), run, s);
    forall key | key in s.states
      ensures key in s.entries
    {
      assert Justified(s, key);
    }
  }
}
