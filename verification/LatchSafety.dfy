/**
 Who may start a daemon, and which epochs can still be heard, over every run of
 the live-connection service.
 */
module LatchSafety {
  import opened Options
  import opened SubscribeWorker
  import opened LiveFrames
  import opened LiveService
  import opened LiveServiceSafety

  // ----- Only an explicit start auto-starts, once -----

  function AutoStarts(queue: seq<Target>): nat {
    if queue == [] then 0 else AutoStarts(queue[..|queue| - 1]) + if queue[|queue| - 1].autoStart then 1 else 0
  }

  lemma PublishedCounts(queue: seq<Target>, target: Target)
    ensures AutoStarts(queue + [target]) == AutoStarts(queue) + if target.autoStart then 1 else 0
  {
    assert (queue + [target])[..|queue|] == queue;
  }

  /** A target taken up counts no more, nor do those skipped for it. */
  lemma {:induction false} TakenCounts(queue: seq<Target>, skipped: nat)
    requires skipped < |queue|
    ensures AutoStarts(queue[skipped + 1..]) + (if queue[skipped].autoStart then 1 else 0) <= AutoStarts(queue)
    decreases |queue|
  {
    var n := |queue| - 1;
    if skipped < n {
      TakenCounts(queue[..n], skipped);
      assert queue[skipped + 1..] == queue[..n][skipped + 1..] + [queue[n]];
      PublishedCounts(queue[..n][skipped + 1..], queue[n]);
    }
  }

  /** How many auto-starting attempts a supervisor can still make on its own. */
  function Pending(sup: Sup): nat {
    AutoStarts(sup.queue) +
    (if sup.run == Arming(true) && sup.running.autoStart then 1 else 0)
  }

  function OwnerPending(s: System, key: Key): nat {
    match Owner(s, key)
    case Some(id) => if id in s.sups then Pending(s.sups[id]) else 0
    case None => 0
  }

  ghost predicate WithinBudget(s: System, key: Key) {
    Count(s.autoAttempts, key) + OwnerPending(s, key) <= Count(s.startCalls, key)
  }

  ghost predicate BudgetInv(s: System) {
    forall key :: WithinBudget(s, key)
  }

  ghost predicate NoAttemptFrom(s: System, id: SupId, gen: nat) {
    forall a :: a in s.attempts && a.sup == id ==> a.gen < gen
  }

  ghost predicate TargetOk(s: System, id: SupId)
    requires id in s.sups
  {
    var sup := s.sups[id];
    && (sup.running.autoStart ==> (id, sup.running.gen) in s.started)
    && sup.running.gen <= sup.target.gen
    && NoAttemptFrom(s, id, sup.running.gen + 1)
    && (sup.run == Arming(true) ==> NoAttemptFrom(s, id, sup.running.gen))
    && (forall i :: 0 <= i < |sup.queue| ==> QueuedOk(s, id, sup, sup.queue[i]))
    && (forall i, j :: 0 <= i < j < |sup.queue| ==> sup.queue[i].gen < sup.queue[j].gen)
  }

  /** A target still on the stream is newer than the running one and untried. */
  ghost predicate QueuedOk(s: System, id: SupId, sup: Sup, target: Target) {
    && target.gen <= sup.target.gen
    && (target.autoStart ==> (id, target.gen) in s.started)
    && (sup.running.gen < target.gen || sup.run.Parked?)
    && NoAttemptFrom(s, id, target.gen)
  }

  ghost predicate TargetInv(s: System) {
    forall id :: Alive(s, id) ==> TargetOk(s, id)
  }

  /** Each auto-starting attempt belongs to a target created by `start` and is the
      first attempt of that target. */
  ghost predicate LogOk(s: System, i: nat)
    requires i < |s.attempts|
  {
    var a := s.attempts[i];
    && a.sup < s.nextSup
    && (a.autoStart ==> (a.sup, a.gen) in s.started &&
                        forall j :: 0 <= j < i ==> s.attempts[j].sup != a.sup || s.attempts[j].gen != a.gen)
  }

  ghost predicate LogInv(s: System) {
    forall i :: 0 <= i < |s.attempts| ==> LogOk(s, i)
  }

  ghost predicate LatchInv(s: System) {
    OwnerInv(s) && BudgetInv(s) && TargetInv(s) && LogInv(s)
  }

  /** Steps that leave counters and history alone and whose supervisors only lose
      pending attempts. */
  ghost predicate Spends(s: System, s': System) {
    && s'.attempts == s.attempts && s'.started == s.started
    && s'.startCalls == s.startCalls && s'.autoAttempts == s.autoAttempts
    && s.nextSup <= s'.nextSup
    && (forall key :: OwnerPending(s', key) <= OwnerPending(s, key))
    && (forall id :: Alive(s', id) ==> TargetOk(s', id))
  }

  lemma SpendingKeepsLatch(s: System, s': System)
    requires LatchInv(s) && Spends(s, s') && OwnerInv(s')
    ensures LatchInv(s')
  {
    forall key
      ensures WithinBudget(s', key)
    {
      assert WithinBudget(s, key);
    }
    forall i | 0 <= i < |s'.attempts|
      ensures LogOk(s', i)
    {
      assert LogOk(s, i);
    }
  }

  /** A supervisor's own step other than an attempt. */
  lemma OwnMoveSpends(s: System, id: SupId, s': System)
    requires LatchInv(s) && OwnStep(s, id, s') && OwnerInv(s')
    requires s'.attempts == s.attempts && s'.started == s.started
    requires s'.startCalls == s.startCalls && s'.autoAttempts == s.autoAttempts
    requires Pending(s'.sups[id]) <= Pending(s.sups[id]) && TargetOk(s', id)
    ensures LatchInv(s')
  {
    forall key
      ensures OwnerPending(s', key) <= OwnerPending(s, key)
    {
      assert Owner(s', key) == Owner(s, key);
    }
    forall other | Alive(s', other)
      ensures TargetOk(s', other)
    {
      if other != id {
        assert TargetOk(s, other);
      }
    }
    SpendingKeepsLatch(s, s');
  }

  /** The supervisor moves on within its target: it does not become ready for a
      first attempt, and a target not yet picked leaves it parked only if it was. */
  ghost predicate MovesOn(s: System, id: SupId, s': System) {
    && id in s.sups && id in s'.sups
    && s'.attempts == s.attempts && s'.started == s.started
    && s'.startCalls == s.startCalls && s'.autoAttempts == s.autoAttempts
    && var sup, sup' := s.sups[id], s'.sups[id];
    && sup'.target == sup.target && sup'.queue == sup.queue && sup'.running == sup.running
    && (sup'.run == sup.run || (sup'.run != Arming(true) && (sup.run.Parked? ==> sup'.run.Parked?)))
  }

  lemma MovingOnIsFine(s: System, id: SupId, s': System)
    requires MovesOn(s, id, s') && TargetOk(s, id)
    ensures Pending(s'.sups[id]) <= Pending(s.sups[id]) && TargetOk(s', id)
  {
    forall i | 0 <= i < |s'.sups[id].queue|
      ensures QueuedOk(s', id, s'.sups[id], s'.sups[id].queue[i])
    {
      assert QueuedOk(s, id, s.sups[id], s.sups[id].queue[i]);
    }
  }

  lemma FrameMovesOn(s: System, id: SupId, key: Key, epoch: int, event: Event, patterns: Patterns)
    requires CanTakeFrame(s, id)
    ensures MovesOn(s, id, DoTakeFrame(s, id, key, epoch, event, patterns))
  {
  }

  lemma SettleMovesOn(s: System, id: SupId)
    requires CanSettle(s, id)
    ensures MovesOn(s, id, DoSettle(s, id))
  {
  }

  lemma StepMovesOn(s: System, step: Step)
    requires Enabled(s, step) && IsOwnStep(step) && !step.Try? && !step.Pick?
    ensures MovesOn(s, step.sup, Apply(s, step))
  {
    match step {
      case StartReturn(id, failure) =>
      case TakeFrame(id, key, epoch, event, patterns) => FrameMovesOn(s, id, key, epoch, event, patterns);
      case Settle(id) => SettleMovesOn(s, id);
      case Rearm(id) =>
      case ParkFatal(id, message) =>
    }
  }

  ghost predicate PicksUp(sup: Sup, sup': Sup, skipped: nat) {
    && skipped < |sup.queue|
    && sup'.key == sup.key && sup'.target == sup.target && sup'.running == sup.queue[skipped]
    && sup'.queue == sup.queue[skipped + 1..] && sup'.run in {Arming(true), Parked}
  }

  lemma PickingIsFine(s: System, id: SupId, s': System, skipped: nat)
    requires id in s.sups && id in s'.sups && PicksUp(s.sups[id], s'.sups[id], skipped)
    requires s'.attempts == s.attempts && s'.started == s.started && TargetOk(s, id)
    ensures Pending(s'.sups[id]) <= Pending(s.sups[id]) && TargetOk(s', id)
  {
    var sup, sup' := s.sups[id], s'.sups[id];
    TakenCounts(sup.queue, skipped);
    assert QueuedOk(s, id, sup, sup.queue[skipped]);
    forall i | 0 <= i < |sup'.queue|
      ensures QueuedOk(s', id, sup', sup'.queue[i])
    {
      assert sup'.queue[i] == sup.queue[skipped + 1 + i];
      assert QueuedOk(s, id, sup, sup.queue[skipped + 1 + i]);
    }
  }

  /** Picking a target up moves its pending attempt from waiting to ready. */
  lemma PickKeepsLatch(s: System, id: SupId, skipped: nat)
    requires LatchInv(s) && CanPick(s, id, skipped)
    ensures LatchInv(DoPick(s, id, skipped))
  {
    var s' := DoPick(s, id, skipped);
    PickIsOwn(s, id, skipped);
    OwnStepKeepsOwners(s, id, s');
    assert TargetOk(s, id);
    PickingIsFine(s, id, s', skipped);
    OwnMoveSpends(s, id, s');
  }

  lemma OwnStepKeepsLatch(s: System, step: Step)
    requires LatchInv(s) && Enabled(s, step) && IsOwnStep(step) && !step.Try? && !step.Pick?
    ensures LatchInv(Apply(s, step))
  {
    var s' := Apply(s, step);
    OwnStepsAreOwn(s, step);
    OwnStepKeepsOwners(s, step.sup, s');
    StepMovesOn(s, step);
    assert TargetOk(s, step.sup);
    MovingOnIsFine(s, step.sup, s');
    OwnMoveSpends(s, step.sup, s');
  }

  // ----- The attempt itself -----

  lemma AttemptKeepsLog(s: System, id: SupId, persists: bool)
    requires LatchInv(s) && CanAttempt(s, id)
    ensures LogInv(DoAttempt(s, id, persists))
  {
    var s' := DoAttempt(s, id, persists);
    assert TargetOk(s, id);
    forall i | 0 <= i < |s'.attempts|
      ensures LogOk(s', i)
    {
      if i < |s.attempts| {
        assert LogOk(s, i);
      } else {
        forall j | 0 <= j < i && s'.attempts[i].autoStart
          ensures s'.attempts[j].sup != id || s'.attempts[j].gen != s.sups[id].running.gen
        {
          assert s.attempts[j] in s.attempts;
        }
      }
    }
  }

  lemma AttemptKeepsTargets(s: System, id: SupId, persists: bool)
    requires LatchInv(s) && CanAttempt(s, id)
    ensures TargetInv(DoAttempt(s, id, persists))
  {
    var s' := DoAttempt(s, id, persists);
    forall other | Alive(s', other)
      ensures TargetOk(s', other)
    {
      assert TargetOk(s, other);
      assert forall a :: a in s'.attempts ==> a in s.attempts || (a.sup == id && a.gen == s.sups[id].running.gen);
    }
  }

  lemma AttemptKeepsBudget(s: System, id: SupId, persists: bool)
    requires LatchInv(s) && CanAttempt(s, id)
    ensures BudgetInv(DoAttempt(s, id, persists))
  {
    var s' := DoAttempt(s, id, persists);
    var sup := s.sups[id];
    assert Owner(s, sup.key) == Some(id);
    forall key
      ensures WithinBudget(s', key)
    {
      assert WithinBudget(s, key);
      assert Owner(s', key) == Owner(s, key);
      assert Owner(s, key) == Some(id) ==> key == sup.key;
    }
  }

  // ----- Retargeting -----

  /** A new target on the stream: one more pending attempt if it auto-starts. */
  lemma PublishingIsFine(s: System, id: SupId, target: Target, s': System)
    requires id in s.sups && id in s'.sups && s'.sups[id] == WithTarget(s.sups[id], target)
    requires target.gen == s.sups[id].target.gen + 1 && (target.autoStart ==> (id, target.gen) in s'.started)
    requires s'.attempts == s.attempts && s.started <= s'.started && TargetOk(s, id)
    ensures TargetOk(s', id) && Pending(s'.sups[id]) == Pending(s.sups[id]) + if target.autoStart then 1 else 0
  {
    var sup, sup' := s.sups[id], s'.sups[id];
    PublishedCounts(sup.queue, target);
    forall i | 0 <= i < |sup'.queue|
      ensures QueuedOk(s', id, sup', sup'.queue[i])
    {
      if i < |sup.queue| {
        assert QueuedOk(s, id, sup, sup.queue[i]);
      }
    }
    forall i, j | 0 <= i < j < |sup'.queue|
      ensures sup'.queue[i].gen < sup'.queue[j].gen
    {
      assert QueuedOk(s, id, sup, sup.queue[i]);
    }
  }

  lemma RetargetKeepsBudget(s: System, key: Key, autoStart: bool)
    requires OwnerInv(s) && BudgetInv(s) && CanRetarget(s, key)
    ensures BudgetInv(DoRetarget(s, key, autoStart))
  {
    var s' := DoRetarget(s, key, autoStart);
    var id := s.entries[key];
    assert Owner(s, key) == Some(id);
    PublishedCounts(s.sups[id].queue, s'.sups[id].target);
    forall k
      ensures WithinBudget(s', k)
    {
      assert WithinBudget(s, k);
      assert Owner(s', k) == Owner(s, k);
      assert Owner(s, k) == Some(id) ==> k == key;
    }
  }

  lemma RetargetKeepsTargets(s: System, key: Key, autoStart: bool)
    requires TargetInv(s) && LogInv(s) && CanRetarget(s, key) && Alive(s, s.entries[key])
    ensures TargetInv(DoRetarget(s, key, autoStart)) && LogInv(DoRetarget(s, key, autoStart))
  {
    var s' := DoRetarget(s, key, autoStart);
    var id := s.entries[key];
    if autoStart {
      assert s'.started[|s.started|] == (id, s.sups[id].target.gen + 1);
    }
    assert s.started <= s'.started;
    assert TargetOk(s, id);
    PublishingIsFine(s, id, s'.sups[id].target, s');
    forall other | Alive(s', other)
      ensures TargetOk(s', other)
    {
      if other != id {
        OtherTargetsStay(s, other, s');
      }
    }
    forall i | 0 <= i < |s'.attempts|
      ensures LogOk(s', i)
    {
      assert LogOk(s, i);
    }
  }

  lemma OtherTargetsStay(s: System, id: SupId, s': System)
    requires TargetInv(s) && Alive(s, id) && id in s'.sups && s'.sups[id] == s.sups[id]
    requires s'.attempts == s.attempts && s.started <= s'.started
    ensures TargetOk(s', id)
  {
    assert TargetOk(s, id);
    forall i | 0 <= i < |s.sups[id].queue|
      ensures QueuedOk(s', id, s.sups[id], s.sups[id].queue[i])
    {
      assert QueuedOk(s, id, s.sups[id], s.sups[id].queue[i]);
    }
  }

  lemma RetargetKeepsLatch(s: System, key: Key, autoStart: bool)
    requires LatchInv(s) && CanRetarget(s, key)
    ensures LatchInv(DoRetarget(s, key, autoStart))
  {
    assert Owner(s, key) == Some(s.entries[key]);
    RetargetIsOwn(s, key, autoStart);
    OwnStepKeepsOwners(s, s.entries[key], DoRetarget(s, key, autoStart));
    RetargetKeepsBudget(s, key, autoStart);
    RetargetKeepsTargets(s, key, autoStart);
  }

  lemma SetEnabledKeepsLatch(s: System, key: Key, enabled: bool, hasSettings: bool)
    requires LatchInv(s) && CanSetEnabled(s, key)
    ensures LatchInv(DoSetEnabled(s, key, enabled, hasSettings))
  {
    var s' := DoSetEnabled(s, key, enabled, hasSettings);
    var id := s.entries[key];
    assert Owner(s, key) == Some(id) && TargetOk(s, id);
    SetEnabledIsOwn(s, key, enabled, hasSettings);
    OwnStepKeepsOwners(s, id, s');
    if s' != s {
      PublishingIsFine(s, id, s'.sups[id].target, s');
      OwnMoveSpends(s, id, s');
    }
  }

  // ----- Configuration and reloads -----

  /** Who owns a key changes, but no supervisor gains a target. */
  lemma OwnershipSpends(s: System, s': System)
    requires LatchInv(s) && OwnerInv(s')
    requires s'.attempts == s.attempts && s'.started == s.started && s.nextSup <= s'.nextSup
    requires s'.startCalls == s.startCalls && s'.autoAttempts == s.autoAttempts
    requires forall key :: Owner(s', key) == Owner(s, key) || OwnerPending(s', key) == 0
    requires forall id :: Alive(s', id) && Alive(s, id) ==> s'.sups[id] == s.sups[id]
    requires forall id :: Alive(s', id) && !Alive(s, id) ==> TargetOk(s', id)
    ensures LatchInv(s')
  {
    forall id | Alive(s', id)
      ensures TargetOk(s', id)
    {
      if Alive(s, id) {
        assert TargetOk(s, id);
      }
    }
    forall key
      ensures OwnerPending(s', key) <= OwnerPending(s, key)
    {
      if Owner(s', key) == Owner(s, key) && Owner(s, key).Some? {
        assert Alive(s, Owner(s, key).value) && Alive(s', Owner(s', key).value);
      }
    }
    SpendingKeepsLatch(s, s');
  }

  lemma RemoveKeepsLatch(s: System, key: Key)
    requires LatchInv(s) && CanRemove(s, key)
    ensures LatchInv(DoRemove(s, key))
  {
    RemoveKeepsOwners(s, key);
    OwnershipSpends(s, DoRemove(s, key));
  }

  lemma DropKeepsLatch(s: System, id: SupId)
    requires LatchInv(s) && CanDrop(s, id)
    ensures LatchInv(DoDrop(s, id))
  {
    DropKeepsOwners(s, id);
    OwnershipSpends(s, DoDrop(s, id));
  }

  lemma ForkKeepsLatch(s: System, enabled: bool, hasSettings: bool)
    requires LatchInv(s) && s.adding.StateReset?
    requires OwnerInv(DoFork(s, enabled, hasSettings))
    ensures LatchInv(DoFork(s, enabled, hasSettings))
  {
    var s' := DoFork(s, enabled, hasSettings);
    forall a | a in s.attempts
      ensures a.sup != s.nextSup
    {
      var i :| 0 <= i < |s.attempts| && s.attempts[i] == a;
      assert LogOk(s, i);
    }
    var target := s'.sups[s.nextSup].target;
    PublishedCounts([], target);
    assert [] + [target] == s'.sups[s.nextSup].queue;
    assert Pending(s'.sups[s.nextSup]) == 0;
    assert TargetOk(s', s.nextSup);
    OwnershipSpends(s, s');
  }

  lemma StepKeepsLatch(s: System, step: Step)
    requires LatchInv(s) && DisplayInv(s) && Enabled(s, step)
    ensures LatchInv(Apply(s, step))
  {
    StepKeepsDisplay(s, step);
    match step {
      case Remove(key) => RemoveKeepsLatch(s, key);
      case SetEnabled(key, enabled, hasSettings) => SetEnabledKeepsLatch(s, key, enabled, hasSettings);
      case Reset(key) => OwnershipSpends(s, Apply(s, step));
      case Fork(enabled, hasSettings) => ForkKeepsLatch(s, enabled, hasSettings);
      case Register => OwnershipSpends(s, Apply(s, step));
      case Drop(id) => DropKeepsLatch(s, id);
      case Retarget(key, autoStart) => RetargetKeepsLatch(s, key, autoStart);
      case Pick(id, skipped) => PickKeepsLatch(s, id, skipped);
      case Try(id, persists) =>
        AttemptKeepsLog(s, id, persists);
        AttemptKeepsTargets(s, id, persists);
        AttemptKeepsBudget(s, id, persists);
      case Reload(now) => OwnershipSpends(s, Apply(s, step));
      case _ => OwnStepKeepsLatch(s, step);
    }
  }

  lemma {:induction false} RunKeepsLatch(s: System, run: seq<Step>, s': System)
    requires LatchInv(s) && DisplayInv(s) && Leads(s, run, s')
    ensures LatchInv(s')
    decreases |run|
  {
    if run != [] {
      StepKeepsDisplay(s, run[0]);
      StepKeepsLatch(s, run[0]);
      RunKeepsLatch(Apply(s, run[0]), run[1..], s');
    }
  }

  /** The auto-starting attempts a log holds for a key. */
  function AutoAttemptsFor(attempts: seq<Attempt>, key: Key): nat {
    if attempts == [] then 0
    else
      var n := |attempts| - 1;
      AutoAttemptsFor(attempts[..n], key) + if attempts[n].key == key && attempts[n].autoStart then 1 else 0
  }

  /** The `start` calls for a key that a run holds. */
  function StartsIn(run: seq<Step>, key: Key): nat {
    if run == [] then 0 else (if run[0] == Retarget(key, true) then 1 else 0) + StartsIn(run[1..], key)
  }

  lemma StepCounts(s: System, step: Step, key: Key)
    requires Enabled(s, step)
    ensures var s' := Apply(s, step);
            && Count(s'.startCalls, key) == Count(s.startCalls, key) + (if step == Retarget(key, true) then 1 else 0)
            && (Count(s.autoAttempts, key) == AutoAttemptsFor(s.attempts, key) ==>
                  Count(s'.autoAttempts, key) == AutoAttemptsFor(s'.attempts, key))
  {
    if step.Try? {
      assert Apply(s, step).attempts[..|s.attempts|] == s.attempts;
    }
  }

  lemma {:induction false} RunCounts(s: System, run: seq<Step>, s': System, key: Key)
    requires Leads(s, run, s') && Count(s.autoAttempts, key) == AutoAttemptsFor(s.attempts, key)
    ensures Count(s'.startCalls, key) == Count(s.startCalls, key) + StartsIn(run, key)
    ensures Count(s'.autoAttempts, key) == AutoAttemptsFor(s'.attempts, key)
    decreases |run|
  {
    if run != [] {
      StepCounts(s, run[0], key);
      RunCounts(Apply(s, run[0]), run[1..], s', key);
    }
  }

  /** Over every run: a key's auto-starting attempts never outnumber the `start`
      calls for it, and each is the first attempt of a target that a `start` made.
      Reconnects, enable flips and re-arms never carry the flag. */
  lemma OnlyStartAutoStarts(now: int, stored: Option<int>, run: seq<Step>, s: System)
    requires Leads(FirstPage(now, stored), run, s)
    ensures forall key :: AutoAttemptsFor(s.attempts, key) <= StartsIn(run, key)
    ensures forall i :: 0 <= i < |s.attempts| && s.attempts[i].autoStart ==>
              && (s.attempts[i].sup, s.attempts[i].gen) in s.started
              && forall j :: 0 <= j < i ==> s.attempts[j].sup != s.attempts[i].sup || s.attempts[j].gen != s.attempts[i].gen
  {
    var first := FirstPage(now, stored);
    assert forall key :: WithinBudget(first, key);
    RunKeepsLatch(first, run, s);
    forall key
      ensures AutoAttemptsFor(s.attempts, key) <= StartsIn(run, key)
    {
      assert WithinBudget(s, key);
      RunCounts(first, run, s, key);
    }
    forall i | 0 <= i < |s.attempts| && s.attempts[i].autoStart
      ensures (s.attempts[i].sup, s.attempts[i].gen) in s.started
      ensures forall j :: 0 <= j < i ==> s.attempts[j].sup != s.attempts[i].sup || s.attempts[j].gen != s.attempts[i].gen
    {
      assert LogOk(s, i);
    }
  }
}
