/**
 The live-picker supervisor of the desktop backend
 (desktop/src-tauri/src/subscribe.rs) as a state machine over every interleaving
 of starts, epoch-guarded stops and worker threads.

 A step is one critical section or one atomic access of the source. The start
 lock is held exactly while `starter` is not Idle; the supervisor-map lock is
 held across two steps only, while a start has spawned its worker but not yet
 inserted it. A start the fence rejects changes nothing and is not a step, and
 neither is a stop whose key or epoch does not match.
 */
module LiveSupervisor {
  import opened Options
  import opened EpochFence
  import opened ChildSlot

  type WorkerId = nat
  type OpId = nat

  datatype LiveWorker = LiveWorker(key: SourceKey, epoch: Epoch, body: Worker)

  datatype Supervisor = Supervisor(epoch: Epoch, worker: WorkerId)

  datatype Teardown = Teardown(worker: WorkerId, tear: Tear)

  datatype Phase =
    | Removing                     // past the gate, about to remove the old supervisor
    | Tearing(teardown: Teardown)  // stopping and joining the old worker
    | Installing                   // about to lock the map and spawn
    | Inserting(worker: WorkerId)  // map locked, worker spawned
    | Committing(worker: WorkerId) // worker inserted, map unlocked, epoch not committed

  datatype Starter = Idle | Starting(key: SourceKey, epoch: Epoch, phase: Phase)

  datatype State = State(
    workers: map<WorkerId, LiveWorker>,      // every worker ever spawned
    supervisors: map<SourceKey, Supervisor>,
    fence: Fence,
    starter: Starter,
    stops: map<OpId, Teardown>,              // running epoch-guarded stops
    honoured: seq<Start>)                    // history of committed starts

  const INITIAL := State(map[], map[], EMPTY_FENCE, Idle, map[], [])

  // An operation that has taken a supervisor out of the map.
  datatype Claimant = ByStart | ByStop(op: OpId)

  predicate InTearing(s: State) { s.starter.Starting? && s.starter.phase.Tearing? }
  predicate InInstalling(s: State) { s.starter.Starting? && s.starter.phase.Installing? }
  predicate InInserting(s: State) { s.starter.Starting? && s.starter.phase.Inserting? }
  predicate InCommitting(s: State) { s.starter.Starting? && s.starter.phase.Committing? }

  predicate MapFree(s: State) { !InInserting(s) }

  function ClaimOf(s: State, c: Claimant): Option<Teardown> {
    match c
    case ByStart => if InTearing(s) then Some(s.starter.phase.teardown) else None
    case ByStop(op) => if op in s.stops then Some(s.stops[op]) else None
  }

  predicate Claims(s: State, c: Claimant, w: WorkerId) {
    ClaimOf(s, c).Some? && ClaimOf(s, c).value.worker == w
  }

  predicate Registered(s: State, w: WorkerId)
    requires w in s.workers
  {
    var key := s.workers[w].key;
    key in s.supervisors && s.supervisors[key].worker == w
  }

  function WithBody(s: State, w: WorkerId, body: Worker): State
    requires w in s.workers
  {
    s.(workers := s.workers[w := s.workers[w].(body := body)])
  }

  // ----- start_live_picker_with_runner -----

  predicate CanBeginStart(s: State, key: SourceKey, epoch: Epoch) {
    s.starter.Idle? && EpochAdvances(s.fence, key, epoch)
  }

  function DoBeginStart(s: State, key: SourceKey, epoch: Epoch): State {
    s.(starter := Starting(key, epoch, Removing))
  }

  predicate CanRemoveForStart(s: State) {
    s.starter.Starting? && s.starter.phase.Removing?
  }

  function DoRemoveForStart(s: State): State
    requires CanRemoveForStart(s)
  {
    if s.starter.key in s.supervisors then
      var teardown := Teardown(s.supervisors[s.starter.key].worker, Claimed);
      s.(supervisors := s.supervisors - {s.starter.key}, starter := s.starter.(phase := Tearing(teardown)))
    else
      s.(starter := s.starter.(phase := Installing))
  }

  predicate CanSpawnWorker(s: State, w: WorkerId) {
    InInstalling(s) && w !in s.workers
  }

  function DoSpawnWorker(s: State, w: WorkerId): State
    requires CanSpawnWorker(s, w)
  {
    s.(workers := s.workers[w := LiveWorker(s.starter.key, s.starter.epoch, NEW_WORKER)],
    starter := s.starter.(phase := Inserting(w)))
  }

  function DoSpawnFails(s: State): State {
    s.(starter := Idle)
  }

  function DoInsertWorker(s: State): State
    requires InInserting(s)
  {
    var w := s.starter.phase.worker;
    s.(supervisors := s.supervisors[s.starter.key := Supervisor(s.starter.epoch, w)],
    starter := s.starter.(phase := Committing(w)))
  }

  ghost predicate CanCommitStart(s: State, after: Fence) {
    InCommitting(s) && Commits(s.fence, Start(s.starter.key, s.starter.epoch), after)
  }

  function DoCommitStart(s: State, after: Fence): State
    requires InCommitting(s)
  {
    s.(fence := after, starter := Idle, honoured := s.honoured + [Start(s.starter.key, s.starter.epoch)])
  }

  // ----- stop_live_picker_supervisor_for_epoch -----

  predicate CanBeginStop(s: State, op: OpId, key: SourceKey, epoch: Epoch) {
    MapFree(s) && op !in s.stops && key in s.supervisors && s.supervisors[key].epoch == epoch
  }

  function DoBeginStop(s: State, op: OpId, key: SourceKey): State
    requires key in s.supervisors
  {
    s.(supervisors := s.supervisors - {key},
    stops := s.stops[op := Teardown(s.supervisors[key].worker, Claimed)])
  }

  predicate CanTearDown(s: State, c: Claimant) {
    match ClaimOf(s, c)
    case None => false
    case Some(t) => t.worker in s.workers && CanTear(s.workers[t.worker].body, t.tear)
  }

  function WithClaim(s: State, c: Claimant, t: Teardown): State
    requires ClaimOf(s, c).Some?
  {
    match c
    case ByStart => s.(starter := s.starter.(phase := Tearing(t)))
    case ByStop(op) => s.(stops := s.stops[op := t])
  }

  function DoTearDown(s: State, c: Claimant): State
    requires CanTearDown(s, c)
  {
    var t := ClaimOf(s, c).value;
    var (body, tear) := TearStep(s.workers[t.worker].body, t.tear);
    WithClaim(WithBody(s, t.worker, body), c, Teardown(t.worker, tear))
  }

  predicate CanJoin(s: State, c: Claimant) {
    match ClaimOf(s, c)
    case None => false
    case Some(t) => t.tear == Joining && t.worker in s.workers && s.workers[t.worker].body.pc == Done
  }

  function DoJoin(s: State, c: Claimant): State
    requires ClaimOf(s, c).Some?
  {
    match c
    case ByStart => s.(starter := s.starter.(phase := Installing))
    case ByStop(op) => s.(stops := s.stops - {op})
  }

  // ----- run_live_picker_worker -----

  predicate CanWorkerAct(s: State, w: WorkerId, act: Act) {
    w in s.workers && CanAct(s.workers[w].body, act)
  }

  function DoWorkerAct(s: State, w: WorkerId, act: Act): State
    requires CanWorkerAct(s, w, act)
  {
    WithBody(s, w, Perform(s.workers[w].body, act))
  }

  predicate CanCleanUp(s: State, w: WorkerId) {
    MapFree(s) && w in s.workers && s.workers[w].body.pc == CleaningUp
  }

  /** Only a supervisor that still carries this worker's own stop flag is removed. */
  function DoCleanUp(s: State, w: WorkerId): State
    requires CanCleanUp(s, w)
  {
    var done := WithBody(s, w, s.workers[w].body.(pc := Done));
    if Registered(s, w) then done.(supervisors := s.supervisors - {s.workers[w].key}) else done
  }

  // ----- Runs -----

  datatype Step =
    | BeginStart(key: SourceKey, epoch: Epoch)
    | RemoveForStart
    | SpawnWorker(worker: WorkerId)
    | SpawnWorkerFails
    | InsertWorker
    | CommitStart(after: Fence)
    | BeginStop(op: OpId, key: SourceKey, epoch: Epoch)
    | TearDown(claimant: Claimant)
    | Join(claimant: Claimant)
    | WorkerAct(worker: WorkerId, act: Act)
    | CleanUp(worker: WorkerId)

  ghost predicate Enabled(s: State, step: Step) {
    match step
    case BeginStart(key, epoch) => CanBeginStart(s, key, epoch)
    case RemoveForStart => CanRemoveForStart(s)
    case SpawnWorker(w) => CanSpawnWorker(s, w)
    case SpawnWorkerFails => InInstalling(s)
    case InsertWorker => InInserting(s)
    case CommitStart(after) => CanCommitStart(s, after)
    case BeginStop(op, key, epoch) => CanBeginStop(s, op, key, epoch)
    case TearDown(c) => CanTearDown(s, c)
    case Join(c) => CanJoin(s, c)
    case WorkerAct(w, act) => CanWorkerAct(s, w, act)
    case CleanUp(w) => CanCleanUp(s, w)
  }

  ghost function Apply(s: State, step: Step): State
    requires Enabled(s, step)
  {
    match step
    case BeginStart(key, epoch) => DoBeginStart(s, key, epoch)
    case RemoveForStart => DoRemoveForStart(s)
    case SpawnWorker(w) => DoSpawnWorker(s, w)
    case SpawnWorkerFails => DoSpawnFails(s)
    case InsertWorker => DoInsertWorker(s)
    case CommitStart(after) => DoCommitStart(s, after)
    case BeginStop(op, key, _) => DoBeginStop(s, op, key)
    case TearDown(c) => DoTearDown(s, c)
    case Join(c) => DoJoin(s, c)
    case WorkerAct(w, act) => DoWorkerAct(s, w, act)
    case CleanUp(w) => DoCleanUp(s, w)
  }

  /** `run` leads from `s` to `s'`, one enabled step after another. */
  ghost predicate Leads(s: State, run: seq<Step>, s': State)
    decreases |run|
  {
    if run == [] then
      s' == s
    else
      Enabled(s, run[0]) && Leads(Apply(s, run[0]), run[1..], s')
  }
}
