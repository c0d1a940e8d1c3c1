/**
 The frontend's live-connection service (desktop/src/effect/LiveConnection.ts) as
 a state machine: one supervisor per configured source, each re-arming its
 subscription, with reconfiguration, retargeting, dying supervisors and page
 reloads interleaved in any order.

 A step is what one fiber does between two points where another may run. A
 configure call is a sequence of Remove, SetEnabled and Add steps; Add takes
 three steps (reset the state, fork the supervisor, register it) and holds the
 service mutex meanwhile. An interrupted fiber runs only its finalizer.
 */
module LiveService {
  import opened Options
  import opened SubscribeWorker
  import opened LiveFrames

  type SupId = nat

  datatype Target = Target(gen: nat, enabled: bool, hasSettings: bool, autoStart: bool)

  datatype Run =
    | Parked                                       // waiting for a source, or fatal
    | Arming(first: bool)                          // about to issue the next epoch
    | Starting(first: bool, epoch: int)            // the start call is in flight
    | Consuming(first: bool, epoch: int, online: bool)
    | Settling(first: bool, epoch: int, online: bool, terminal: Terminal) // the stop call is in flight
    | BackingOff                                   // sleeping, or polling for a daemon

  // `queue`: targets on the supervisor's change stream that it has not taken up yet,
  // oldest first; superseded ones may still be among them.
  datatype Sup = Sup(key: Key, target: Target, queue: seq<Target>, running: Target, run: Run, dying: bool)

  datatype Adding = NotAdding | StateReset(key: Key) | Forked(key: Key, sup: SupId)

  datatype Attempt = Attempt(key: Key, sup: SupId, gen: nat, autoStart: bool)

  datatype Issued = Issued(key: Key, epoch: int)

  datatype System = System(
    entries: map<Key, SupId>,
    states: map<Key, LiveState>,
    sups: map<SupId, Sup>,          // running and dying supervisors
    adding: Adding,
    epoch: int,                     // the page's counter
    stored: Option<int>,            // its persisted copy
    // history, never read by a step
    nextSup: SupId,
    producers: map<Key, SupId>,     // who last stored rows for a key
    issued: seq<Issued>,
    attempts: seq<Attempt>,
    started: seq<(SupId, nat)>,     // targets created by `start`
    startCalls: map<Key, nat>,
    autoAttempts: map<Key, nat>,
    pageFrom: nat)                  // how many epochs earlier pages issued

  function Count(counts: map<Key, nat>, key: Key): nat {
    if key in counts then counts[key] else 0
  }

  function StateFor(s: System, key: Key): LiveState {
    if key in s.states then s.states[key] else INITIAL_STATE
  }

  function SeedEpoch(now: int, stored: Option<int>): int {
    if stored.Some? && stored.value >= now then stored.value else now
  }

  function FirstPage(now: int, stored: Option<int>): System {
    System(map[], map[], map[], NotAdding, SeedEpoch(now, stored), stored, 0, map[], [], [], [], map[], map[], 0)
  }

  predicate Alive(s: System, id: SupId) {
    id in s.sups && !s.sups[id].dying
  }

  function WithSup(s: System, id: SupId, sup: Sup): System {
    s.(sups := s.sups[id := sup])
  }

  function WithSupAndState(s: System, id: SupId, sup: Sup, state: LiveState): System {
    s.(sups := s.sups[id := sup], states := s.states[sup.key := state])
  }

  /** The target reference changes, and the change is published. */
  function WithTarget(sup: Sup, target: Target): Sup {
    sup.(target := target, queue := sup.queue + [target])
  }

  // ----- configure -----

  predicate CanRemove(s: System, key: Key) {
    s.adding.NotAdding? && key in s.entries && s.entries[key] in s.sups
  }

  function DoRemove(s: System, key: Key): System
    requires CanRemove(s, key)
  {
    var id := s.entries[key];
    WithSup(s.(entries := s.entries - {key}), id, s.sups[id].(dying := true))
  }

  predicate CanSetEnabled(s: System, key: Key) {
    s.adding.NotAdding? && key in s.entries && s.entries[key] in s.sups
  }

  /** Only a real flip makes a new target, and never an auto-starting one. */
  function DoSetEnabled(s: System, key: Key, enabled: bool, hasSettings: bool): System
    requires CanSetEnabled(s, key)
  {
    var id := s.entries[key];
    var sup := s.sups[id];
    if sup.target.enabled == enabled then s
    else WithSup(s, id, WithTarget(sup, Target(sup.target.gen + 1, enabled, hasSettings, false)))
  }

  predicate CanReset(s: System, key: Key) {
    s.adding.NotAdding? && key !in s.entries
  }

  function DoReset(s: System, key: Key): System {
    s.(adding := StateReset(key), states := s.states[key := INITIAL_STATE])
  }

  function DoFork(s: System, enabled: bool, hasSettings: bool): System
    requires s.adding.StateReset?
  {
    var id := s.nextSup;
    var target := Target(0, enabled, hasSettings, false);
    s.(adding := Forked(s.adding.key, id), nextSup := id + 1,
    sups := s.sups[id := Sup(s.adding.key, target, [target], target, Parked, false)])
  }

  function DoRegister(s: System): System
    requires s.adding.Forked?
  {
    s.(adding := NotAdding, entries := s.entries[s.adding.key := s.adding.sup])
  }

  /** The finalizer of a dying supervisor: it drops the key's state unless the key
      has an owner again. */
  predicate CanDrop(s: System, id: SupId) {
    id in s.sups && s.sups[id].dying
  }

  function DoDrop(s: System, id: SupId): System
    requires CanDrop(s, id)
  {
    var key := s.sups[id].key;
    s.(sups := s.sups - {id}, states := if key in s.entries then s.states else s.states - {key})
  }

  // ----- reconnect and start -----

  predicate CanRetarget(s: System, key: Key) {
    s.adding.NotAdding? && key in s.entries && s.entries[key] in s.sups
  }

  function DoRetarget(s: System, key: Key, autoStart: bool): System
    requires CanRetarget(s, key)
  {
    var id := s.entries[key];
    var sup := s.sups[id];
    var gen := sup.target.gen + 1;
    var next := WithSup(s, id, WithTarget(sup, sup.target.(gen := gen, autoStart := autoStart)));
    if autoStart then
      next.(started := s.started + [(id, gen)], startCalls := s.startCalls[key := Count(s.startCalls, key) + 1])
    else next
  }

  // ----- superviseKey and runTarget -----

  predicate CanPick(s: System, id: SupId, skipped: nat) {
    Alive(s, id) && skipped < |s.sups[id].queue|
  }

  /** The stream delivers its next target, which interrupts the running one. A stream
      that is subscribed to late skips what was published before. */
  function DoPick(s: System, id: SupId, skipped: nat): System
    requires CanPick(s, id, skipped)
  {
    var sup := s.sups[id];
    var target := sup.queue[skipped];
    var ready := target.enabled && target.hasSettings;
    s.(sups := s.sups[id := sup.(queue := sup.queue[skipped + 1..], running := target, run := if ready then Arming(true) else Parked)],
    states := if ready then s.states else s.states[sup.key := LiveState(StConnecting("Waiting for a source"), [], None)])
  }

  predicate CanAttempt(s: System, id: SupId) {
    Alive(s, id) && s.sups[id].run.Arming?
  }

  /** Issue the next epoch, persist it if storage works, and call start. */
  function DoAttempt(s: System, id: SupId, persists: bool): System
    requires CanAttempt(s, id)
  {
    var sup := s.sups[id];
    var epoch := s.epoch + 1;
    var autoStart := sup.run.first && sup.running.autoStart;
    var connection := if sup.run.first then StConnecting("Connecting to agentscan")
                      else StReconnecting("Reconnecting to agentscan");
    WithSupAndState(s, id, sup.(run := Starting(sup.run.first, epoch)), StateFor(s, sup.key).(connection := connection))
    .(epoch := epoch,
    stored := if persists then Some(epoch) else s.stored,
    issued := s.issued + [Issued(sup.key, epoch)],
    attempts := s.attempts + [Attempt(sup.key, id, sup.running.gen, autoStart)],
    autoAttempts := if autoStart then s.autoAttempts[sup.key := Count(s.autoAttempts, sup.key) + 1] else s.autoAttempts)
  }

  predicate CanStartReturn(s: System, id: SupId) {
    Alive(s, id) && s.sups[id].run.Starting?
  }

  function DoStartReturn(s: System, id: SupId, failure: Option<string>): System
    requires CanStartReturn(s, id)
  {
    var sup := s.sups[id];
    var run := match failure
               case None => Consuming(sup.run.first, sup.run.epoch, false)
               case Some(message) => Settling(sup.run.first, sup.run.epoch, false, FatalEnd(message));
    WithSup(s, id, sup.(run := run))
  }

  predicate CanTakeFrame(s: System, id: SupId) {
    Alive(s, id) && s.sups[id].run.Consuming?
  }

  predicate IsForRun(sup: Sup, key: Key, epoch: int) {
    sup.run.Consuming? && sup.key == key && sup.run.epoch == epoch
  }

  function RunAfterFrame(run: Run, event: Event, patterns: Patterns): Run
    requires run.Consuming?
  {
    var online := run.online || event.Rows?;
    match FoldEvent(event, patterns).terminal
    case None => Consuming(run.first, run.epoch, online)
    case Some(terminal) => Settling(run.first, run.epoch, online, terminal)
  }

  /** One turn of the drain loop, on any envelope the queue may deliver. */
  function DoTakeFrame(s: System, id: SupId, key: Key, epoch: int, event: Event, patterns: Patterns): System
    requires CanTakeFrame(s, id)
  {
    var sup := s.sups[id];
    if !IsForRun(sup, key, epoch) then s
    else
      s.(sups := s.sups[id := sup.(run := RunAfterFrame(sup.run, event, patterns))],
      states := StatesAfterFrame(s, key, event, patterns),
      producers := if event.Rows? then s.producers[key := id] else s.producers)
  }

  function StatesAfterFrame(s: System, key: Key, event: Event, patterns: Patterns): map<Key, LiveState> {
    match FoldEvent(event, patterns).update
    case None => s.states
    case Some(update) => s.states[key := ApplyUpdate(StateFor(s, key), update, key)]
  }

  predicate CanSettle(s: System, id: SupId) {
    Alive(s, id) && s.sups[id].run.Settling?
  }

  /** A latch miss of our own first, never-online start is a refusal. */
  function Judge(run: Run, target: Target): Terminal
    requires run.Settling?
  {
    if run.terminal.NoDaemon? && run.first && target.autoStart && !run.online
    then FatalEnd(run.terminal.message) else run.terminal
  }

  /** The state shown once `terminal` is judged: everything but a recoverable end
      clears the rows. */
  function SettledState(before: LiveState, terminal: Terminal): LiveState {
    match terminal
    case FatalEnd(message) => LiveState(StFatal(message), [], None)
    case NoDaemon(message) => LiveState(StNoDaemon(message), [], None)
    case Recoverable(message) => before.(connection := StReconnecting(message))
    case Mismatch(message) => before.(connection := StReconnecting(message))
  }

  function DoSettle(s: System, id: SupId): System
    requires CanSettle(s, id)
  {
    var sup := s.sups[id];
    var terminal := Judge(sup.run, sup.running);
    var run := if terminal.FatalEnd? then Parked else BackingOff;
    WithSupAndState(s, id, sup.(run := run), SettledState(StateFor(s, sup.key), terminal))
  }

  predicate CanRearm(s: System, id: SupId) {
    Alive(s, id) && s.sups[id].run.BackingOff?
  }

  function DoRearm(s: System, id: SupId): System
    requires CanRearm(s, id)
  {
    WithSup(s, id, s.sups[id].(run := Arming(false)))
  }

  /** A listener that cannot be installed, or a defect: park as fatal. */
  function DoParkFatal(s: System, id: SupId, message: string): System
    requires Alive(s, id)
  {
    var sup := s.sups[id];
    WithSupAndState(s, id, sup.(run := Parked), LiveState(StFatal(message), [], None))
  }

  /** A new page: everything but the persisted epoch is gone. */
  function DoReload(s: System, now: int): System {
    s.(entries := map[], states := map[], sups := map[], adding := NotAdding, producers := map[],
    epoch := SeedEpoch(now, s.stored), pageFrom := |s.issued|)
  }

  // ----- Runs -----

  datatype Step =
    | Remove(key: Key)
    | SetEnabled(key: Key, enabled: bool, hasSettings: bool)
    | Reset(key: Key)
    | Fork(enabled: bool, hasSettings: bool)
    | Register
    | Drop(sup: SupId)
    | Retarget(key: Key, autoStart: bool)
    | Pick(sup: SupId, skipped: nat)
    | Try(sup: SupId, persists: bool)
    | StartReturn(sup: SupId, failure: Option<string>)
    | TakeFrame(sup: SupId, key: Key, epoch: int, event: Event, patterns: Patterns)
    | Settle(sup: SupId)
    | Rearm(sup: SupId)
    | ParkFatal(sup: SupId, message: string)
    | Reload(now: int)

  predicate Enabled(s: System, step: Step) {
    match step
    case Remove(key) => CanRemove(s, key)
    case SetEnabled(key, _, _) => CanSetEnabled(s, key)
    case Reset(key) => CanReset(s, key)
    case Fork(_, _) => s.adding.StateReset?
    case Register => s.adding.Forked?
    case Drop(id) => CanDrop(s, id)
    case Retarget(key, _) => CanRetarget(s, key)
    case Pick(id, skipped) => CanPick(s, id, skipped)
    case Try(id, _) => CanAttempt(s, id)
    case StartReturn(id, _) => CanStartReturn(s, id)
    case TakeFrame(id, _, _, _, _) => CanTakeFrame(s, id)
    case Settle(id) => CanSettle(s, id)
    case Rearm(id) => CanRearm(s, id)
    case ParkFatal(id, _) => Alive(s, id)
    case Reload(_) => true
  }

  function Apply(s: System, step: Step): System
    requires Enabled(s, step)
  {
    match step
    case Remove(key) => DoRemove(s, key)
    case SetEnabled(key, enabled, hasSettings) => DoSetEnabled(s, key, enabled, hasSettings)
    case Reset(key) => DoReset(s, key)
    case Fork(enabled, hasSettings) => DoFork(s, enabled, hasSettings)
    case Register => DoRegister(s)
    case Drop(id) => DoDrop(s, id)
    case Retarget(key, autoStart) => DoRetarget(s, key, autoStart)
    case Pick(id, skipped) => DoPick(s, id, skipped)
    case Try(id, persists) => DoAttempt(s, id, persists)
    case StartReturn(id, failure) => DoStartReturn(s, id, failure)
    case TakeFrame(id, key, epoch, event, patterns) => DoTakeFrame(s, id, key, epoch, event, patterns)
    case Settle(id) => DoSettle(s, id)
    case Rearm(id) => DoRearm(s, id)
    case ParkFatal(id, message) => DoParkFatal(s, id, message)
    case Reload(now) => DoReload(s, now)
  }

  ghost predicate Leads(s: System, run: seq<Step>, s': System)
    decreases |run|
  {
    if run == [] then
      s' == s
    else
      Enabled(s, run[0]) && Leads(Apply(s, run[0]), run[1..], s')
  }
}
