/**
 The pane-activation guard (desktop/src/effect/Activation.ts) as a state machine:
 one slot, the fibers that hold it or outlive it, folder-close pruning, and the
 supervisor that lets a shown failure expire.

 A step is what one fiber does between two points where another may run. Activate
 and prune hold the service mutex from their first to their last step, except that
 either call may be abandoned in between: its caller is interrupted and the mutex
 released. An interrupted fiber runs only its finalizer. Every failure shown
 carries a serial number standing for the identity of the state object.
 */
module Activation {
  import opened Options

  type Token = nat
  type Key = string
  type Pane = string

  datatype Shown = Idle | Running(pane: Pane, key: Key) | Failed(message: string, key: Key, serial: nat)

  // `attached`: the fiber has been recorded in the slot.
  datatype Slot = Slot(token: Token, attached: bool)

  datatype Work = Focusing | Reconnecting | Finishing

  datatype Fiber = Fiber(pane: Pane, key: Key, work: Work, interrupted: bool)

  datatype Phase = SlotTaken | StateSet | Forked

  datatype Mutex =
    | Free
    | Activating(token: Token, pane: Pane, key: Key, phase: Phase)
    | Pruning(seen: Shown, freed: bool)

  // The failure the expiry supervisor watches, and whether its timer is armed.
  datatype Watch = Watch(failure: Shown, armed: bool)

  datatype System = System(
    mutex: Mutex,
    running: Option<Slot>,
    shown: Shown,
    fibers: map<Token, Fiber>,
    pending: seq<Shown>,         // states published, not yet seen by the supervisor
    watch: Option<Watch>,
    // history, never read by a step's guard
    nextToken: Token,
    failures: seq<Shown>,        // every failure shown, by serial number
    abandoned: map<Token, Phase>, // activate calls abandoned, and how far they had come
    cut: bool)                    // a prune has interrupted the holder, and no state was published since

  datatype Step =
    | BeginActivate(pane: Pane, key: Key)
    | ShowRunning
    | Fork
    | Attach
    | Abandon
    | SettleOk(token: Token)                     // focused, or failed with its folder closed by now
    | SettleFailed(token: Token, message: string)
    | Reconnected(token: Token)
    | Finalize(token: Token)
    | BeginPrune(openKeys: set<Key>)
    | PruneSlot
    | PruneShown
    | AbandonPrune
    | Observe                                    // the supervisor takes the next published state
    | Recovery(recovering: bool)                 // the watched source starts or stops recovering
    | Expire

  function Initial(): System {
    System(Free, None, Idle, map[], [], None, 0, [], map[], false)
  }

  function Publish(s: System, shown: Shown): System {
    s.(shown := shown, pending := s.pending + [shown], cut := false)
  }

  // ----- activate -----

  function DoBeginActivate(s: System, pane: Pane, key: Key): System {
    if s.running.Some? then s
    else
      s.(mutex := Activating(s.nextToken, pane, key, SlotTaken),
      running := Some(Slot(s.nextToken, false)), nextToken := s.nextToken + 1)
  }

  function DoShowRunning(s: System): System
    requires s.mutex.Activating?
  {
    Publish(s.(mutex := s.mutex.(phase := StateSet)), Running(s.mutex.pane, s.mutex.key))
  }

  function DoFork(s: System): System
    requires s.mutex.Activating?
  {
    s.(mutex := s.mutex.(phase := Forked),
    fibers := s.fibers[s.mutex.token := Fiber(s.mutex.pane, s.mutex.key, Focusing, false)])
  }

  /** The fiber may be done by now: only a slot still owned is filled in. */
  function DoAttach(s: System): System
    requires s.mutex.Activating?
  {
    var own := s.running.Some? && s.running.value.token == s.mutex.token;
    s.(mutex := Free, running := if own then Some(Slot(s.mutex.token, true)) else s.running)
  }

  /** The caller is interrupted: the mutex is released, and nothing else happens. A
      fiber already forked goes on. */
  function DoAbandon(s: System): System
    requires s.mutex.Activating?
  {
    s.(mutex := Free, abandoned := s.abandoned[s.mutex.token := s.mutex.phase])
  }

  // ----- The activation's fiber -----

  predicate Continues(s: System, token: Token, work: Work) {
    token in s.fibers && !s.fibers[token].interrupted && s.fibers[token].work == work
  }

  function WithWork(s: System, token: Token, work: Work): System
    requires token in s.fibers
  {
    s.(fibers := s.fibers[token := s.fibers[token].(work := work)])
  }

  function DoSettleOk(s: System, token: Token): System
    requires token in s.fibers
  {
    Publish(WithWork(s, token, Finishing), Idle)
  }

  function DoSettleFailed(s: System, token: Token, message: string): System
    requires token in s.fibers
  {
    var failure := Failed(message, s.fibers[token].key, |s.failures|);
    Publish(WithWork(s.(failures := s.failures + [failure]), token, Reconnecting), failure)
  }

  /** Frees the slot only if this fiber still holds it. */
  function DoFinalize(s: System, token: Token): System {
    var own := s.running.Some? && s.running.value.token == token;
    s.(fibers := s.fibers - {token}, running := if own then None else s.running)
  }

  // ----- prune -----

  function DoBeginPrune(s: System, openKeys: set<Key>): System {
    if s.shown.Idle? || s.shown.key in openKeys then s else s.(mutex := Pruning(s.shown, false))
  }

  function Interrupted(fibers: map<Token, Fiber>, token: Token): map<Token, Fiber> {
    if token in fibers then fibers[token := fibers[token].(interrupted := true)] else fibers
  }

  function DoPruneSlot(s: System): System
    requires s.mutex.Pruning?
  {
    if s.mutex.seen.Running? && s.running.Some? && s.running.value.attached then
      s.(mutex := s.mutex.(freed := true), running := None, cut := true,
      fibers := Interrupted(s.fibers, s.running.value.token))
    else s.(mutex := s.mutex.(freed := true))
  }

  function DoPruneShown(s: System): System {
    Publish(s.(mutex := Free), Idle)
  }

  /** What the prune has done so far stays done. */
  function DoAbandonPrune(s: System): System {
    s.(mutex := Free)
  }

  // ----- The expiry supervisor -----

  function DoObserve(s: System): System
    requires s.pending != []
  {
    s.(pending := s.pending[1..], watch := if s.pending[0].Failed? then Some(Watch(s.pending[0], false)) else None)
  }

  function DoRecovery(s: System, recovering: bool): System
    requires s.watch.Some?
  {
    s.(watch := Some(s.watch.value.(armed := !recovering)))
  }

  function DoExpire(s: System): System
    requires s.watch.Some?
  {
    var after := s.(watch := Some(s.watch.value.(armed := false)));
    if s.shown == s.watch.value.failure then Publish(after, Idle) else after
  }

  // ----- Steps -----

  predicate InPhase(s: System, phase: Phase) {
    s.mutex.Activating? && s.mutex.phase == phase
  }

  predicate Enabled(s: System, step: Step) {
    match step
    case BeginActivate(_, _) => s.mutex.Free?
    case ShowRunning => InPhase(s, SlotTaken)
    case Fork => InPhase(s, StateSet)
    case Attach => InPhase(s, Forked)
    case Abandon => s.mutex.Activating?
    case SettleOk(token) => Continues(s, token, Focusing)
    case SettleFailed(token, _) => Continues(s, token, Focusing)
    case Reconnected(token) => Continues(s, token, Reconnecting)
    case Finalize(token) => token in s.fibers && (s.fibers[token].interrupted || s.fibers[token].work == Finishing)
    case BeginPrune(_) => s.mutex.Free?
    case PruneSlot => s.mutex.Pruning? && !s.mutex.freed
    case PruneShown => s.mutex.Pruning? && s.mutex.freed
    case AbandonPrune => s.mutex.Pruning?
    case Observe => s.pending != []
    case Recovery(_) => s.watch.Some?
    case Expire => s.watch.Some? && s.watch.value.armed
  }

  function Apply(s: System, step: Step): System
    requires Enabled(s, step)
  {
    match step
    case BeginActivate(pane, key) => DoBeginActivate(s, pane, key)
    case ShowRunning => DoShowRunning(s)
    case Fork => DoFork(s)
    case Attach => DoAttach(s)
    case Abandon => DoAbandon(s)
    case SettleOk(token) => DoSettleOk(s, token)
    case SettleFailed(token, message) => DoSettleFailed(s, token, message)
    case Reconnected(token) => WithWork(s, token, Finishing)
    case Finalize(token) => DoFinalize(s, token)
    case BeginPrune(openKeys) => DoBeginPrune(s, openKeys)
    case PruneSlot => DoPruneSlot(s)
    case PruneShown => DoPruneShown(s)
    case AbandonPrune => DoAbandonPrune(s)
    case Observe => DoObserve(s)
    case Recovery(recovering) => DoRecovery(s, recovering)
    case Expire => DoExpire(s)
  }

  predicate Allowed(s: System, run: seq<Step>)
    decreases |run|
  {
    run == [] || (Enabled(s, run[0]) && Allowed(Apply(s, run[0]), run[1..]))
  }

  function After(s: System, run: seq<Step>): System
    requires Allowed(s, run)
    decreases |run|
  {
    if run == [] then s else After(Apply(s, run[0]), run[1..])
  }

  // ----- Invariants -----

  predicate TokensUsed(s: System) {
    && (forall t :: t in s.fibers ==> t < s.nextToken)
    && (forall t :: t in s.abandoned ==> t < s.nextToken)
    && (s.mutex.Activating? ==> s.mutex.token < s.nextToken && s.mutex.token !in s.abandoned)
    && (s.running.Some? ==> s.running.value.token < s.nextToken)
  }

  /** The activate call of this token was abandoned before it forked its fiber. */
  predicate Unforked(s: System, token: Token) {
    token in s.abandoned && !s.abandoned[token].Forked?
  }

  /** The slot is held by an activation still being set up or abandoned unforked, or
      by a fiber nobody has interrupted; and such fibers hold it. */
  predicate SlotIsHeld(s: System) {
    && (s.running.Some? && s.running.value.token !in s.fibers ==>
          || (s.mutex.Activating? && s.mutex.token == s.running.value.token && !s.mutex.phase.Forked?)
          || Unforked(s, s.running.value.token))
    && (forall t :: t in s.fibers ==> !Unforked(s, t)
                                      && (!s.fibers[t].interrupted <==> s.running.Some? && s.running.value.token == t))
    && (s.mutex.Activating? && s.running.Some? ==> s.mutex.token == s.running.value.token && !s.running.value.attached)
    && (s.running.Some? && !s.mutex.Activating? ==> (s.running.value.attached <==> s.running.value.token !in s.abandoned))
    && (s.mutex.Activating? && !s.mutex.phase.Forked? ==> s.running.Some? && s.mutex.token !in s.fibers)
  }

  predicate HeldUnforked(s: System) {
    s.running.Some? && Unforked(s, s.running.value.token)
  }

  /** The slot's holder is setting up or focusing the source shown as running, or was
      abandoned before it had a fiber. */
  predicate HolderShows(s: System) {
    s.shown.Running? && s.running.Some?
    && var t := s.running.value.token;
    if t in s.fibers then s.fibers[t] == Fiber(s.shown.pane, s.shown.key, Focusing, false)
    else s.mutex == Activating(t, s.shown.pane, s.shown.key, StateSet) || Unforked(s, t)
  }

  /** A source shown as running has the slot's holder behind it, unless a prune has
      interrupted that and not cleared the state. */
  predicate RunningIsOwned(s: System) {
    && (s.shown.Running? && !s.cut ==> HolderShows(s))
    && (s.shown.Running? && s.cut ==> forall t :: t in s.fibers ==> s.fibers[t].interrupted)
    && (s.shown.Running? && s.cut && s.running.Some? ==> InPhase(s, SlotTaken) || Unforked(s, s.running.value.token))
  }

  predicate PruneFrees(s: System) {
    && (s.mutex.Pruning? && s.mutex.freed && s.mutex.seen.Running? && s.running.Some? ==> s.running.value.token in s.abandoned)
    && (InPhase(s, SlotTaken) ==> !s.shown.Running? || s.cut)
  }

  /** A focus call in flight shows as running, unless its activate call was abandoned
      and a prune has cleared the state since. */
  predicate FocusIsShown(s: System) {
    && (forall t :: t in s.fibers && !s.fibers[t].interrupted && s.fibers[t].work.Focusing? ==>
          s.shown == Running(s.fibers[t].pane, s.fibers[t].key) || (s.shown.Idle? && t in s.abandoned))
    && (s.mutex.Pruning? && !s.mutex.seen.Running? ==>
          !s.shown.Running? && forall t :: t in s.fibers && !s.fibers[t].interrupted ==> !s.fibers[t].work.Focusing?)
    && (InPhase(s, StateSet) ==> s.shown == Running(s.mutex.pane, s.mutex.key))
  }

  predicate Recorded(s: System, shown: Shown) {
    shown.Failed? ==> shown.serial < |s.failures| && s.failures[shown.serial] == shown
  }

  predicate FailuresAreRecorded(s: System) {
    && Recorded(s, s.shown)
    && (forall i :: 0 <= i < |s.pending| ==> Recorded(s, s.pending[i]))
    && (s.watch.Some? ==> s.watch.value.failure.Failed? && Recorded(s, s.watch.value.failure))
  }

  predicate Inv(s: System) {
    TokensUsed(s) && SlotIsHeld(s) && RunningIsOwned(s) && PruneFrees(s) && FocusIsShown(s) && FailuresAreRecorded(s)
  }

  predicate OfActivate(step: Step) {
    step.BeginActivate? || step.ShowRunning? || step.Fork? || step.Attach? || step.Abandon?
  }

  predicate OfFiber(step: Step) {
    step.SettleOk? || step.SettleFailed? || step.Reconnected? || step.Finalize?
  }

  lemma ActivateKeepsSlot(s: System, step: Step)
    requires Enabled(s, step) && OfActivate(step) && TokensUsed(s) && SlotIsHeld(s)
    ensures TokensUsed(Apply(s, step)) && SlotIsHeld(Apply(s, step))
  {
  }

  lemma FiberKeepsSlot(s: System, step: Step)
    requires Enabled(s, step) && OfFiber(step) && TokensUsed(s) && SlotIsHeld(s)
    ensures TokensUsed(Apply(s, step)) && SlotIsHeld(Apply(s, step))
  {
  }

  lemma StepKeepsSlot(s: System, step: Step)
    requires Enabled(s, step) && TokensUsed(s) && SlotIsHeld(s)
    ensures TokensUsed(Apply(s, step)) && SlotIsHeld(Apply(s, step))
  {
    if OfActivate(step) {
      ActivateKeepsSlot(s, step);
    } else if OfFiber(step) {
      FiberKeepsSlot(s, step);
    }
  }

  lemma StepKeepsOwnership(s: System, step: Step)
    requires Enabled(s, step) && TokensUsed(s) && SlotIsHeld(s) && RunningIsOwned(s) && PruneFrees(s)
    ensures RunningIsOwned(Apply(s, step)) && PruneFrees(Apply(s, step))
  {
  }

  lemma FailureIsRecorded(s: System, token: Token, message: string)
    requires token in s.fibers && FailuresAreRecorded(s)
    ensures FailuresAreRecorded(DoSettleFailed(s, token, message))
    ensures s.failures <= DoSettleFailed(s, token, message).failures
  {
  }

  lemma CallKeepsRecords(s: System, step: Step)
    requires Enabled(s, step) && (OfActivate(step) || OfFiber(step)) && !step.SettleFailed? && FailuresAreRecorded(s)
    ensures FailuresAreRecorded(Apply(s, step)) && Apply(s, step).failures == s.failures
  {
  }

  lemma StepKeepsRecords(s: System, step: Step)
    requires Enabled(s, step) && FailuresAreRecorded(s)
    ensures FailuresAreRecorded(Apply(s, step)) && s.failures <= Apply(s, step).failures
  {
    if step.SettleFailed? {
      FailureIsRecorded(s, step.token, step.message);
    } else if OfActivate(step) || OfFiber(step) {
      CallKeepsRecords(s, step);
    }
  }

  lemma ActivateKeepsFocus(s: System, step: Step)
    requires Enabled(s, step) && OfActivate(step) && TokensUsed(s) && SlotIsHeld(s) && RunningIsOwned(s) && PruneFrees(s)
    requires FocusIsShown(s)
    ensures FocusIsShown(Apply(s, step))
  {
  }

  lemma FiberKeepsFocus(s: System, step: Step)
    requires Enabled(s, step) && OfFiber(step) && SlotIsHeld(s) && RunningIsOwned(s) && FocusIsShown(s)
    ensures FocusIsShown(Apply(s, step))
  {
  }

  lemma StepKeepsFocus(s: System, step: Step)
    requires Enabled(s, step) && TokensUsed(s) && SlotIsHeld(s) && RunningIsOwned(s) && PruneFrees(s)
    requires FocusIsShown(s) && FailuresAreRecorded(s)
    ensures FocusIsShown(Apply(s, step))
  {
    if OfActivate(step) {
      ActivateKeepsFocus(s, step);
    } else if OfFiber(step) {
      FiberKeepsFocus(s, step);
    }
  }

  lemma {:induction false} RunKeepsInv(s: System, run: seq<Step>)
    requires Inv(s) && Allowed(s, run)
    ensures Inv(After(s, run)) && s.failures <= After(s, run).failures
    decreases |run|
  {
    if run != [] {
      StepKeepsSlot(s, run[0]);
      StepKeepsOwnership(s, run[0]);
      StepKeepsFocus(s, run[0]);
      StepKeepsRecords(s, run[0]);
      RunKeepsInv(Apply(s, run[0]), run[1..]);
    }
  }

  // ----- What every run keeps -----

  /** At most one activation is alive. A source shown as running is backed by the
      slot's holder, setting it up or focusing it, exactly if no prune has interrupted
      that holder on the way to clearing the state, an activation abandoned unforked in
      the slot excepted. And a live focus call shows, unless its activate call was
      abandoned and a prune has cleared the state since. */
  lemma RunningStateIsTheHolders(run: seq<Step>)
    requires Allowed(Initial(), run)
    ensures var s := After(Initial(), run);
            && (forall t, u :: t in s.fibers && u in s.fibers && !s.fibers[t].interrupted && !s.fibers[u].interrupted ==> t == u)
            && (s.shown.Running? && !HeldUnforked(s) ==> (HolderShows(s) <==> !s.cut))
            && (s.shown.Running? && s.cut ==> forall t :: t in s.fibers ==> s.fibers[t].interrupted)
            && (forall t :: Continues(s, t, Focusing) ==>
                  s.shown == Running(s.fibers[t].pane, s.fibers[t].key) || (s.shown.Idle? && t in s.abandoned))
  {
    RunKeepsInv(Initial(), run);
  }

  /** A finalizer frees the slot exactly if its own activation still holds it; a
      pruned activation's late finalizer never frees a successor's. */
  lemma FinalizersFreeOnlyTheirOwn(run: seq<Step>, token: Token)
    requires Allowed(Initial(), run) && Enabled(After(Initial(), run), Finalize(token))
    ensures var s := After(Initial(), run);
            if s.fibers[token].interrupted then Apply(s, Finalize(token)).running == s.running
            else s.running.Some? && Apply(s, Finalize(token)).running == None
  {
    RunKeepsInv(Initial(), run);
  }

  lemma {:induction false} PruneKeepsWhatItSaw(s: System, run: seq<Step>)
    requires Allowed(s, run) && s.mutex.Pruning? && PruneShown !in run && AbandonPrune !in run
    ensures After(s, run).mutex.Pruning? && After(s, run).mutex.seen == s.mutex.seen
    ensures After(s, run).abandoned == s.abandoned && (After(s, run).running == s.running || After(s, run).running == None)
    decreases |run|
  {
    if run != [] {
      assert run[0] in run;
      PruneKeepsWhatItSaw(Apply(s, run[0]), run[1..]);
    }
  }

  /** A prune itself never frees a slot whose fiber was not recorded: only that fiber's
      finalizer does. */
  lemma {:induction false} UnrecordedStays(s: System, run: seq<Step>, token: Token)
    requires Allowed(s, run) && s.mutex.Pruning? && PruneShown !in run && AbandonPrune !in run && s.running == Some(Slot(token, false))
    ensures After(s, run).running == if Finalize(token) in run then None else s.running
    decreases |run|
  {
    if run != [] {
      assert run == [run[0]] + run[1..];
      if run[0] == Finalize(token) {
        PruneKeepsWhatItSaw(Apply(s, run[0]), run[1..]);
      } else {
        UnrecordedStays(Apply(s, run[0]), run[1..], token);
      }
    }
  }

  lemma {:induction false} RunInTwo(s: System, first: seq<Step>, second: seq<Step>)
    requires Allowed(s, first + second)
    ensures Allowed(s, first) && Allowed(After(s, first), second)
    ensures After(s, first + second) == After(After(s, first), second)
    decreases |first|
  {
    if first == [] {
      assert first + second == second;
    } else {
      assert (first + second)[1..] == first[1..] + second;
      RunInTwo(Apply(s, first[0]), first[1..], second);
    }
  }

  /** Pruning a running source that is no longer open clears the state, whatever
      happens between the prune's steps, and it frees the slot exactly if the source's
      activate call was not abandoned or its fiber happens to finish meanwhile. */
  lemma PruneFreesAClosedSource(before: seq<Step>, openKeys: set<Key>, during: seq<Step>)
    requires Allowed(Initial(), before)
    requires var s := After(Initial(), before);
             && s.shown.Running? && s.shown.key !in openKeys
             && Allowed(s, [BeginPrune(openKeys)] + during + [PruneShown]) && PruneShown !in during && AbandonPrune !in during
    ensures var s := After(Initial(), before);
            var s' := After(s, [BeginPrune(openKeys)] + during + [PruneShown]);
            && s'.shown == Idle && s'.mutex == Free
            && (s.running.Some? ==>
                  (s'.running == None <==> s.running.value.token !in s.abandoned || Finalize(s.running.value.token) in during))
            && (s.running.None? ==> s.cut && s'.running == None)
  {
    var s := After(Initial(), before);
    RunKeepsInv(Initial(), before);
    var begun := Apply(s, BeginPrune(openKeys));
    var run := [BeginPrune(openKeys)] + during;
    RunInTwo(s, run, [PruneShown]);
    assert run[1..] == during;
    PruneKeepsWhatItSaw(begun, during);
    RunKeepsInv(s, run);
    var last := After(s, run);
    assert [PruneShown][1..] == [];
    assert After(last, [PruneShown]) == Apply(last, PruneShown);
    if s.running.Some? && s.running.value.token in s.abandoned {
      UnrecordedStays(begun, during, s.running.value.token);
    }
  }

  lemma NoFocusBehindAFailure(s: System)
    requires FocusIsShown(s) && s.shown.Failed?
    ensures forall t :: !Continues(s, t, Focusing)
  {
  }

  lemma FailureGoes(s: System, step: Step)
    requires Enabled(s, step) && s.shown.Failed? && forall t :: !Continues(s, t, Focusing)
    requires Apply(s, step).shown != s.shown
    ensures step in {PruneShown, ShowRunning} || (step == Expire && s.watch == Some(Watch(s.shown, true)))
  {
  }

  /** A shown failure goes away only by its own timer, by a prune, or for the next
      activation; and the timer touches nothing but the very failure it was armed
      for, which no other failure equals. */
  lemma FailureOutlivesOtherTimers(run: seq<Step>, step: Step)
    requires Allowed(Initial(), run) && Enabled(After(Initial(), run), step)
    requires After(Initial(), run).shown.Failed?
    ensures var s := After(Initial(), run);
            Apply(s, step).shown != s.shown ==>
              step in {PruneShown, ShowRunning} || (step == Expire && s.watch == Some(Watch(s.shown, true)))
    ensures var s := After(Initial(), run);
            step.Expire? ==> s.watch.value.failure.Failed?
                             && (s.watch.value.failure.serial == s.shown.serial ==> s.watch.value.failure == s.shown)
  {
    RunKeepsInv(Initial(), run);
    var s := After(Initial(), run);
    NoFocusBehindAFailure(s);
    if Apply(s, step).shown != s.shown {
      FailureGoes(s, step);
    }
  }

  /** The timer clears a state only if it is the very failure it was armed for, the
      one the history holds under that number. */
  lemma ExpiryIsExact(run: seq<Step>)
    requires Allowed(Initial(), run) && Enabled(After(Initial(), run), Expire)
    ensures var (s, failure) := (After(Initial(), run), After(Initial(), run).watch.value.failure);
            && failure.Failed? && failure.serial < |s.failures| && s.failures[failure.serial] == failure
            && Apply(s, Expire).shown == (if s.shown == failure then Idle else s.shown)
            && Apply(s, Expire).running == s.running
  {
    RunKeepsInv(Initial(), run);
  }

  // ----- What a prune spares -----

  /** A prune does nothing at all when nothing is shown, or for an open source. */
  lemma PruneSparesOpenSources(s: System, openKeys: set<Key>)
    requires Enabled(s, BeginPrune(openKeys))
    ensures Apply(s, BeginPrune(openKeys)) == s <==> s.shown.Idle? || s.shown.key in openKeys
    ensures Apply(s, BeginPrune(openKeys)).mutex.Pruning? <==> !s.shown.Idle? && s.shown.key !in openKeys
  {
  }

  /** A prune of a closed source can always be carried through, and then shows nothing,
      be it a running focus or a failure that it found. */
  lemma PruneRunsThrough(s: System, openKeys: set<Key>)
    requires Enabled(s, BeginPrune(openKeys)) && !s.shown.Idle? && s.shown.key !in openKeys
    ensures var run := [BeginPrune(openKeys), PruneSlot, PruneShown];
            Allowed(s, run) && After(s, run).shown == Idle && After(s, run).mutex == Free
  {
    var begun := Apply(s, BeginPrune(openKeys));
    var freed := Apply(begun, PruneSlot);
    var last := Apply(freed, PruneShown);
    OneStepBefore(freed, PruneShown, [], last);
    OneStepBefore(begun, PruneSlot, [PruneShown], last);
    OneStepBefore(s, BeginPrune(openKeys), [PruneSlot, PruneShown], last);
  }

  /** A fiber stays, for its pane and source, until its own finalizer has run, and only a
      prune interrupts one: the slot's holder, and no other. */
  lemma OnlyPruneInterrupts(s: System, step: Step, t: Token)
    requires Enabled(s, step) && TokensUsed(s) && SlotIsHeld(s) && t in s.fibers && step != Finalize(t)
    ensures var s' := Apply(s, step);
            && t in s'.fibers && s'.fibers[t].pane == s.fibers[t].pane && s'.fibers[t].key == s.fibers[t].key
            && (s'.fibers[t].interrupted != s.fibers[t].interrupted ==>
                  step == PruneSlot && s.running == Some(Slot(t, true)) && s'.running == None && s'.fibers[t].interrupted)
  {
  }

  /** Whatever a prune under way can still touch is of the source it saw. */
  ghost predicate PruneHasOneTarget(s: System) {
    s.mutex.Pruning? ==>
      && !s.mutex.seen.Idle?
      && (!s.shown.Idle? ==> s.shown.key == s.mutex.seen.key)
      && (forall t :: Continues(s, t, Focusing) ==> s.fibers[t].key == s.mutex.seen.key)
      && (s.mutex.seen.Running? && s.running.Some? && s.running.value.token in s.fibers ==>
            s.fibers[s.running.value.token].key == s.mutex.seen.key)
  }

  /** No prune has this source as its target, nor has interrupted an activation of it. */
  predicate Spared(s: System, key: Key) {
    && (s.mutex.Pruning? && !s.mutex.seen.Idle? ==> s.mutex.seen.key != key)
    && (forall t :: t in s.fibers && s.fibers[t].key == key ==> !s.fibers[t].interrupted)
  }

  lemma BeginPruneHasOneTarget(s: System, openKeys: set<Key>)
    requires Enabled(s, BeginPrune(openKeys)) && Inv(s)
    ensures PruneHasOneTarget(Apply(s, BeginPrune(openKeys)))
  {
  }

  lemma StepKeepsOneTarget(s: System, step: Step)
    requires Enabled(s, step) && Inv(s) && PruneHasOneTarget(s)
    ensures PruneHasOneTarget(Apply(s, step))
  {
    if step.BeginPrune? {
      BeginPruneHasOneTarget(s, step.openKeys);
    } else if s.mutex.Pruning? {
      PruningKeepsOneTarget(s, step);
    }
  }

  lemma PruningKeepsOneTarget(s: System, step: Step)
    requires Enabled(s, step) && s.mutex.Pruning? && PruneHasOneTarget(s)
    ensures PruneHasOneTarget(Apply(s, step))
  {
  }

  lemma StepKeepsSpared(s: System, step: Step, key: Key)
    requires Enabled(s, step) && PruneHasOneTarget(s) && SlotIsHeld(s) && Spared(s, key)
    requires step.BeginPrune? ==> key in step.openKeys
    requires InPhase(s, StateSet) ==> s.mutex.token !in s.fibers
    ensures Spared(Apply(s, step), key)
  {
  }

  /** Every prune of the run finds this source open. */
  predicate AlwaysOpen(run: seq<Step>, key: Key) {
    forall i :: 0 <= i < |run| && run[i].BeginPrune? ==> key in run[i].openKeys
  }

  lemma {:induction false} RunKeepsSpared(s: System, run: seq<Step>, key: Key)
    requires Inv(s) && PruneHasOneTarget(s) && Spared(s, key) && Allowed(s, run) && AlwaysOpen(run, key)
    ensures Inv(After(s, run)) && PruneHasOneTarget(After(s, run)) && Spared(After(s, run), key)
    decreases |run|
  {
    if run != [] {
      StepKeepsSpared(s, run[0], key);
      StepKeepsOneTarget(s, run[0]);
      RunKeepsInv(s, run[..1]);
      assert run[..1][1..] == [];
      RunKeepsSpared(Apply(s, run[0]), run[1..], key);
    }
  }

  /** Over every run in which a source stays open, whatever else is closed and pruned:
      no activation of it is ever interrupted, no prune under way is aimed at it, and a
      failure it shows goes only by its own timer or for the next activation. */
  lemma OpenSourcesAreSpared(run: seq<Step>, key: Key)
    requires Allowed(Initial(), run) && AlwaysOpen(run, key)
    ensures var s := After(Initial(), run);
            && (forall t :: t in s.fibers && s.fibers[t].key == key ==> !s.fibers[t].interrupted)
            && (forall step :: s.shown.Failed? && s.shown.key == key && Enabled(s, step) && Apply(s, step).shown != s.shown ==>
                  step == ShowRunning || (step == Expire && s.watch == Some(Watch(s.shown, true))))
  {
    RunKeepsSpared(Initial(), run, key);
    var s := After(Initial(), run);
    forall step | s.shown.Failed? && s.shown.key == key && Enabled(s, step) && Apply(s, step).shown != s.shown
      ensures step == ShowRunning || (step == Expire && s.watch == Some(Watch(s.shown, true)))
    {
      FailureOutlivesOtherTimers(run, step);
    }
  }

  // ----- What settling shows, and when a timer may fire -----

  /** A focus that succeeds clears what is shown; one that fails shows its own message
      under its own source, and then reconnects that source's activation. */
  lemma SettlingShowsTheOutcome(s: System, token: Token, message: string)
    requires Enabled(s, SettleOk(token))
    ensures Apply(s, SettleOk(token)).shown == Idle && Apply(s, SettleOk(token)).fibers[token].work == Finishing
    ensures var s' := Apply(s, SettleFailed(token, message));
            && s'.shown.Failed? && s'.shown.message == message && s'.shown.key == s.fibers[token].key
            && s'.fibers[token].work == Reconnecting && s'.fibers[token].key == s.fibers[token].key
  {
  }

  predicate TouchesTimer(step: Step) {
    step.Observe? || step.Recovery? || step.Expire?
  }

  /** The last step that concerns the timer says that the source has recovered. */
  ghost predicate LastRecovered(run: seq<Step>) {
    exists i :: 0 <= i < |run| && run[i] == Recovery(false) && forall j :: i < j < |run| ==> !TouchesTimer(run[j])
  }

  predicate NeverTouched(run: seq<Step>) {
    forall i :: 0 <= i < |run| ==> !TouchesTimer(run[i])
  }

  lemma StepArmsIff(s: System, step: Step)
    requires Enabled(s, step)
    ensures Enabled(Apply(s, step), Expire) <==> step == Recovery(false) || (!TouchesTimer(step) && Enabled(s, Expire))
  {
  }

  lemma LastRecoveredFrom(run: seq<Step>)
    requires run != []
    ensures LastRecovered(run) <==> LastRecovered(run[1..]) || (run[0] == Recovery(false) && NeverTouched(run[1..]))
    ensures NeverTouched(run) <==> !TouchesTimer(run[0]) && NeverTouched(run[1..])
  {
    var rest := run[1..];
    if LastRecovered(rest) {
      var i :| 0 <= i < |rest| && rest[i] == Recovery(false) && forall j :: i < j < |rest| ==> !TouchesTimer(rest[j]);
      assert run[i + 1] == Recovery(false);
      assert forall j :: i + 1 < j < |run| ==> run[j] == rest[j - 1];
    }
    if LastRecovered(run) {
      var i :| 0 <= i < |run| && run[i] == Recovery(false) && forall j :: i < j < |run| ==> !TouchesTimer(run[j]);
      assert i > 0 ==> rest[i - 1] == Recovery(false);
      assert forall j :: 0 <= j < |rest| ==> rest[j] == run[j + 1];
    }
  }

  lemma {:induction false} TimerFiresIff(s: System, run: seq<Step>)
    requires Allowed(s, run)
    ensures Enabled(After(s, run), Expire) <==> LastRecovered(run) || (NeverTouched(run) && Enabled(s, Expire))
    decreases |run|
  {
    if run != [] {
      StepArmsIff(s, run[0]);
      LastRecoveredFrom(run);
      TimerFiresIff(Apply(s, run[0]), run[1..]);
    }
  }

  /** After every run, a failure's timer may fire exactly if the failed source was last
      seen recovered, and no new state has been seen and no timer has fired since: never
      while it is still recovering. */
  lemma ExpiryAwaitsRecovery(run: seq<Step>)
    requires Allowed(Initial(), run)
    ensures Enabled(After(Initial(), run), Expire) <==> LastRecovered(run)
  {
    TimerFiresIff(Initial(), run);
  }

  /** The last state published is the one shown, and once the supervisor has seen it, a
      failure shown is the one it watches. */
  predicate WatchFollows(s: System) {
    if s.pending != [] then s.pending[|s.pending| - 1] == s.shown
    else s.shown.Failed? ==> s.watch.Some? && s.watch.value.failure == s.shown
  }

  lemma StepKeepsWatch(s: System, step: Step)
    requires Enabled(s, step) && WatchFollows(s)
    ensures WatchFollows(Apply(s, step))
  {
  }

  lemma {:induction false} RunKeepsWatch(s: System, run: seq<Step>)
    requires Allowed(s, run) && WatchFollows(s)
    ensures WatchFollows(After(s, run))
    decreases |run|
  {
    if run != [] {
      StepKeepsWatch(s, run[0]);
      RunKeepsWatch(Apply(s, run[0]), run[1..]);
    }
  }

  /** The supervisor sees every state published, in order. */
  lemma SeesWhatIsPublished(s: System, step: Step)
    requires Enabled(s, step)
    ensures var s' := Apply(s, step);
            if step == Observe then s.pending == [s.pending[0]] + s'.pending && s'.shown == s.shown
            else s'.pending == s.pending + [s'.shown] || (s'.pending == s.pending && s'.shown == s.shown)
  {
  }

  function Times(n: nat, step: Step): seq<Step> {
    if n == 0 then [] else [step] + Times(n - 1, step)
  }

  lemma {:induction false} SeesAll(s: System)
    requires WatchFollows(s)
    ensures var run := Times(|s.pending|, Observe);
            Allowed(s, run) && After(s, run).shown == s.shown && After(s, run).pending == [] && WatchFollows(After(s, run))
    decreases |s.pending|
  {
    if s.pending != [] {
      var next := Apply(s, Observe);
      StepKeepsWatch(s, Observe);
      SeesAll(next);
      OneStepBefore(s, Observe, Times(|next.pending|, Observe), After(next, Times(|next.pending|, Observe)));
    }
  }

  /** After every run a failure shown can still expire: the supervisor sees what was
      published, the failed source recovers, the timer fires, and nothing is shown. */
  lemma ShownFailureCanExpire(run: seq<Step>)
    requires Allowed(Initial(), run) && After(Initial(), run).shown.Failed?
    ensures var s := After(Initial(), run);
            exists later :: Allowed(s, Times(|s.pending|, Observe) + later) && later == [Recovery(false), Expire]
                            && After(s, Times(|s.pending|, Observe) + later).shown == Idle
  {
    var s := After(Initial(), run);
    RunKeepsWatch(Initial(), run);
    SeesAll(s);
    var seen := After(s, Times(|s.pending|, Observe));
    var armed := Apply(seen, Recovery(false));
    var last := Apply(armed, Expire);
    OneStepBefore(armed, Expire, [], last);
    OneStepBefore(seen, Recovery(false), [Expire], last);
    assert [Recovery(false)] + [Expire] == [Recovery(false), Expire];
    RunsJoin(s, Times(|s.pending|, Observe), [Recovery(false), Expire]);
  }

  lemma {:induction false} RunsJoin(s: System, first: seq<Step>, second: seq<Step>)
    requires Allowed(s, first) && Allowed(After(s, first), second)
    ensures Allowed(s, first + second) && After(s, first + second) == After(After(s, first), second)
    decreases |first|
  {
    if first == [] {
      assert first + second == second;
    } else {
      RunsJoin(Apply(s, first[0]), first[1..], second);
      assert (first + second)[1..] == first[1..] + second;
    }
  }

  // ----- Abandoned prune calls -----

  /** A prune abandoned between its two writes leaves a source shown as running with
      nothing behind it; the slot is free, so the next activation goes ahead. */
  lemma AbandonedPruneLeavesTheState(pane: Pane, key: Key)
    ensures var run := [BeginActivate(pane, key), ShowRunning, Fork, Attach, BeginPrune({}), PruneSlot, AbandonPrune];
            Allowed(Initial(), run)
            && var s := After(Initial(), run);
            s.mutex.Free? && s.running == None && s.shown == Running(pane, key) && s.cut
  {
    var s1 := Apply(Initial(), BeginActivate(pane, key));
    var s2 := Apply(s1, ShowRunning);
    var s3 := Apply(s2, Fork);
    var s4 := Apply(s3, Attach);
    var s5 := Apply(s4, BeginPrune({}));
    var s6 := Apply(s5, PruneSlot);
    var s7 := Apply(s6, AbandonPrune);
    OneStepBefore(s6, AbandonPrune, [], s7);
    OneStepBefore(s5, PruneSlot, [AbandonPrune], s7);
    OneStepBefore(s4, BeginPrune({}), [PruneSlot, AbandonPrune], s7);
    OneStepBefore(s3, Attach, [BeginPrune({}), PruneSlot, AbandonPrune], s7);
    OneStepBefore(s2, Fork, [Attach, BeginPrune({}), PruneSlot, AbandonPrune], s7);
    OneStepBefore(s1, ShowRunning, [Fork, Attach, BeginPrune({}), PruneSlot, AbandonPrune], s7);
    OneStepBefore(Initial(), BeginActivate(pane, key), [ShowRunning, Fork, Attach, BeginPrune({}), PruneSlot, AbandonPrune], s7);
  }

  lemma OneStepBefore(s: System, step: Step, rest: seq<Step>, last: System)
    requires Enabled(s, step) && Allowed(Apply(s, step), rest) && After(Apply(s, step), rest) == last
    ensures Allowed(s, [step] + rest) && After(s, [step] + rest) == last
  {
    assert ([step] + rest)[1..] == rest;
  }

  // ----- Abandoned activate calls -----

  /** No run from here ever changes who holds the slot. */
  ghost predicate HeldForever(s: System) {
    forall run :: Allowed(s, run) ==> After(s, run).running == s.running
  }

  lemma {:induction false} UnforkedStays(s: System, run: seq<Step>)
    requires Inv(s) && HeldUnforked(s) && Allowed(s, run)
    ensures After(s, run).running == s.running && !After(s, run).mutex.Activating?
    decreases |run|
  {
    if run != [] {
      RunKeepsInv(s, run[..1]);
      assert run[..1][1..] == [];
      UnforkedStays(Apply(s, run[0]), run[1..]);
    }
  }

  /** What is still to happen until the fiber of this work has freed its slot. */
  function Finish(token: Token, work: Work): seq<Step> {
    match work
    case Focusing => [SettleOk(token), Finalize(token)]
    case Reconnecting => [Reconnected(token), Finalize(token)]
    case Finishing => [Finalize(token)]
  }

  lemma FiberFinishes(s: System)
    requires s.running.Some? && s.running.value.token in s.fibers && !s.fibers[s.running.value.token].interrupted
    ensures var run := Finish(s.running.value.token, s.fibers[s.running.value.token].work);
            Allowed(s, run) && After(s, run).running == None
  {
    var token := s.running.value.token;
    var run := Finish(token, s.fibers[token].work);
    if !s.fibers[token].work.Finishing? {
      assert run[1..] == [Finalize(token)];
      var next := Apply(s, run[0]);
      assert [Finalize(token)][1..] == [];
      assert After(next, [Finalize(token)]) == Apply(next, Finalize(token));
    }
  }

  lemma SetUpFinishes(s: System) returns (run: seq<Step>)
    requires Inv(s) && s.mutex.Activating? && !s.mutex.phase.Forked?
    ensures Allowed(s, run) && After(s, run).running == None
    decreases s.mutex.phase.SlotTaken?
  {
    if s.mutex.phase.SlotTaken? {
      assert [ShowRunning][1..] == [];
      RunKeepsInv(s, [ShowRunning]);
      var rest := SetUpFinishes(Apply(s, ShowRunning));
      run := [ShowRunning] + rest;
      assert run[1..] == rest;
    } else {
      assert [Fork][1..] == [];
      RunKeepsInv(s, [Fork]);
      FiberFinishes(Apply(s, Fork));
      var rest := Finish(s.mutex.token, Focusing);
      run := [Fork] + rest;
      assert run[1..] == rest;
    }
  }

  /** After any run, the slot is lost for good exactly if the activate call that holds
      it was abandoned before it forked its fiber: then no later step, of a prune, a
      finalizer or a timer, frees it, and no activate call gets past its first check.
      Every other holder has a run of its own that frees the slot. */
  lemma SlotIsLostIff(run: seq<Step>)
    requires Allowed(Initial(), run) && After(Initial(), run).running.Some?
    ensures var s := After(Initial(), run);
            && (HeldForever(s) <==> Unforked(s, s.running.value.token))
            && (HeldForever(s) ==> forall later :: Allowed(s, later) ==> !After(s, later).mutex.Activating?)
  {
    var s := After(Initial(), run);
    RunKeepsInv(Initial(), run);
    if HeldUnforked(s) {
      forall later | Allowed(s, later)
        ensures After(s, later).running == s.running && !After(s, later).mutex.Activating?
      {
        UnforkedStays(s, later);
      }
    } else if s.running.value.token in s.fibers {
      FiberFinishes(s);
    } else {
      var rest := SetUpFinishes(s);
    }
  }

  /** Either way of losing the slot is reachable: before the state is shown, and after. */
  lemma AbandonedActivateWedges(pane: Pane, key: Key, shows: bool)
    ensures var run := [BeginActivate(pane, key)] + (if shows then [ShowRunning] else []) + [Abandon];
            && Allowed(Initial(), run) && HeldForever(After(Initial(), run)) && After(Initial(), run).running.Some?
            && After(Initial(), run).shown == if shows then Running(pane, key) else Idle
  {
    var run := [BeginActivate(pane, key)] + (if shows then [ShowRunning] else []) + [Abandon];
    var taken := Apply(Initial(), run[0]);
    var ready := if shows then Apply(taken, ShowRunning) else taken;
    assert [Abandon][1..] == [];
    assert After(ready, [Abandon]) == DoAbandon(ready);
    assert run[1..] == if shows then [ShowRunning] + [Abandon] else [Abandon];
    assert ([ShowRunning] + [Abandon])[1..] == [Abandon];
    assert Allowed(taken, run[1..]) && After(taken, run[1..]) == DoAbandon(ready);
    SlotIsLostIff(run);
  }
}
