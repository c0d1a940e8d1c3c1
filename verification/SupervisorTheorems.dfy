/**
 The guarantees of the live-picker supervisor, over every run from its start.
 */
module SupervisorTheorems {
  import opened Options
  import opened EpochFence
  import opened ChildSlot
  import opened LiveSupervisor
  import opened SupervisorSafety

  lemma {:induction false} RunKeepsInv(s: State, run: seq<Step>, s': State)
    requires Inv(s) && Leads(s, run, s')
    ensures Inv(s')
    decreases |run|
  {
    if run != [] {
      StepKeepsInv(s, run[0]);
      RunKeepsInv(Apply(s, run[0]), run[1..], s');
    }
  }

  lemma ReachableInv(run: seq<Step>, s: State)
    requires Leads(INITIAL, run, s)
    ensures Inv(s)
  {
    InitialInv();
    RunKeepsInv(INITIAL, run, s);
  }

  /** Whenever the start lock is free, a registered supervisor runs exactly the
      highest epoch ever honoured for its key, in a worker that has not ended. */
  lemma RegisteredRunsHighestEpoch(run: seq<Step>, s: State, key: SourceKey)
    requires Leads(INITIAL, run, s) && s.starter.Idle? && key in s.supervisors
    ensures var sup := s.supervisors[key];
            && sup.worker in s.workers
            && s.workers[sup.worker].key == key && s.workers[sup.worker].epoch == sup.epoch
            && s.workers[sup.worker].body.pc != Done
            && Highest(s.honoured, key, sup.epoch)
  {
    ReachableInv(run, s);
    assert SupervisorOk(s, key);
    assert BodyOk(s, s.supervisors[key].worker);
  }

  /** Every worker that has not ended either stands (registered, or spawned by the
      start that holds the map lock) and nobody is tearing it down, or it has left
      the map and exactly one operation is tearing it down. A key never has two
      standing workers. */
  lemma EveryWorkerHasOneOwner(run: seq<Step>, s: State, w: WorkerId)
    requires Leads(INITIAL, run, s) && w in s.workers && s.workers[w].body.pc != Done
    ensures Standing(s, w) ==> forall c :: !Claims(s, c, w)
    ensures !Standing(s, w) ==> exists c :: Claims(s, c, w) && forall d :: Claims(s, d, w) ==> d == c
    ensures Standing(s, w) ==> forall v :: v in s.workers && s.workers[v].key == s.workers[w].key && Standing(s, v) ==> v == w
  {
    ReachableInv(run, s);
    assert BodyOk(s, w);
  }

  /** The three ways a step can change what is registered for a key. */
  ghost predicate Displaces(s: State, step: Step, key: SourceKey)
    requires key in s.supervisors
  {
    match step
    case RemoveForStart => s.starter.Starting? && s.starter.key == key && s.starter.epoch > s.supervisors[key].epoch
    case BeginStop(_, k, epoch) => k == key && epoch == s.supervisors[key].epoch
    case CleanUp(w) => w == s.supervisors[key].worker
    case _ => false
  }

  ghost predicate KeepsSupervisor(s: State, s': State, key: SourceKey)
    requires key in s.supervisors
  {
    key in s'.supervisors && s'.supervisors[key] == s.supervisors[key]
  }

  lemma RemovalHasHigherEpoch(s: State)
    requires GateInv(s) && SupervisorInv(s) && CanRemoveForStart(s) && s.starter.key in s.supervisors
    ensures s.starter.epoch > s.supervisors[s.starter.key].epoch
  {
    assert SupervisorOk(s, s.starter.key);
    AdmittedIsNew(s.fence, s.honoured, Start(s.starter.key, s.starter.epoch));
  }

  lemma InsertKeepsOthers(s: State, key: SourceKey)
    requires InInserting(s) && s.starter.key !in s.supervisors && key in s.supervisors
    ensures KeepsSupervisor(s, DoInsertWorker(s), key)
  {
  }

  lemma CleanUpKeepsOthers(s: State, w: WorkerId, key: SourceKey)
    requires CanCleanUp(s, w) && key in s.supervisors && s.supervisors[key].worker != w
    ensures KeepsSupervisor(s, DoCleanUp(s, w), key)
  {
  }

  lemma StepDisplaces(s: State, step: Step, key: SourceKey)
    requires Enabled(s, step) && key in s.supervisors
    requires InInserting(s) ==> s.starter.key !in s.supervisors
    requires CanRemoveForStart(s) && s.starter.key == key ==> s.starter.epoch > s.supervisors[key].epoch
    ensures KeepsSupervisor(s, Apply(s, step), key) || Displaces(s, step, key)
  {
    match step {
      case InsertWorker => InsertKeepsOthers(s, key);
      case CleanUp(w) =>
        if s.supervisors[key].worker != w {
          CleanUpKeepsOthers(s, w, key);
        }
      case TearDown(c) => assert DoTearDown(s, c).supervisors == s.supervisors;
      case _ =>
    }
  }

  /** A supervisor is displaced only by a start with a strictly higher epoch for
      the same key, a stop for exactly its epoch, or the end of its own worker:
      never by a stale start, a stale stop or an older worker's clean-up. */
  lemma OnlyOwnersDisplace(run: seq<Step>, s: State, step: Step, key: SourceKey)
    requires Leads(INITIAL, run, s) && Enabled(s, step) && key in s.supervisors
    ensures KeepsSupervisor(s, Apply(s, step), key) || Displaces(s, step, key)
  {
    ReachableInv(run, s);
    if CanRemoveForStart(s) && s.starter.key == key {
      RemovalHasHigherEpoch(s);
    }
    StepDisplaces(s, step, key);
  }

  // ----- Epochs never go backwards -----

  ghost predicate KeepsIdentities(s: State, s': State) {
    && (forall w :: w in s.workers ==> w in s'.workers && SameIdentity(s'.workers[w], s.workers[w]))
    && (forall start :: start in Admitted(s) ==> start in Admitted(s'))
  }

  lemma StepKeepsIdentities(s: State, step: Step)
    requires Enabled(s, step)
    ensures KeepsIdentities(s, Apply(s, step))
  {
    match step {
      case SpawnWorker(w) => assert Admitted(DoSpawnWorker(s, w)) == s.honoured + [Start(s.starter.key, s.starter.epoch)];
      case TearDown(c) => TornStructure(s, c);
      case WorkerAct(w, act) => ActedStructure(s, w, act);
      case CleanUp(w) => CleanedFrame(s, w);
      case _ => assert Admitted(Apply(s, step)) == Admitted(s);
    }
  }

  lemma {:induction false} RunKeepsIdentities(s: State, run: seq<Step>, s': State)
    requires Leads(s, run, s')
    ensures KeepsIdentities(s, s')
    decreases |run|
  {
    if run != [] {
      StepKeepsIdentities(s, run[0]);
      RunKeepsIdentities(Apply(s, run[0]), run[1..], s');
    }
  }

  /** Over any continuation of any run, the epoch registered for a key never
      decreases, and a different worker always means a strictly higher epoch. */
  lemma RegisteredEpochsOnlyRise(before: seq<Step>, s: State, run: seq<Step>, s': State, key: SourceKey)
    requires Leads(INITIAL, before, s) && Leads(s, run, s')
    requires key in s.supervisors && key in s'.supervisors
    ensures s'.supervisors[key].epoch >= s.supervisors[key].epoch
    ensures s'.supervisors[key].worker != s.supervisors[key].worker ==>
              s'.supervisors[key].epoch > s.supervisors[key].epoch
  {
    ReachableInv(before, s);
    RunKeepsInv(s, run, s');
    RunKeepsIdentities(s, run, s');
    assert SupervisorOk(s, key) && SupervisorOk(s', key);
    assert Start(key, s.supervisors[key].epoch) in Admitted(s');
  }

  // ----- The child -----

  predicate HasLeaked(s: State, w: WorkerId) {
    w in s.workers && s.workers[w].body.leaked
  }

  lemma TearDownLeaksNothing(s: State, c: Claimant, w: WorkerId)
    requires CanTearDown(s, c)
    ensures HasLeaked(DoTearDown(s, c), w) <==> HasLeaked(s, w)
  {
  }

  lemma StepLeaks(s: State, step: Step, w: WorkerId)
    requires Enabled(s, step)
    ensures HasLeaked(Apply(s, step), w) <==> HasLeaked(s, w) || step == WorkerAct(w, PollErrors)
  {
    match step {
      case TearDown(c) => TearDownLeaksNothing(s, c, w);
      case _ =>
    }
  }

  lemma {:induction false} RunLeaks(s: State, run: seq<Step>, s': State, w: WorkerId)
    requires Leads(s, run, s')
    ensures HasLeaked(s', w) <==> HasLeaked(s, w) || WorkerAct(w, PollErrors) in run
    decreases |run|
  {
    if run != [] {
      StepLeaks(s, run[0], w);
      RunLeaks(Apply(s, run[0]), run[1..], s', w);
      assert run == [run[0]] + run[1..];
    }
  }

  /** When a stop or a replacing start joins the worker it tore down, no handle to
      that worker's child is left anywhere, and the child has been reaped (or was
      never spawned) exactly if `try_wait` never failed for it in the whole run. */
  lemma JoinLeavesNoChild(run: seq<Step>, s: State, c: Claimant)
    requires Leads(INITIAL, run, s) && CanJoin(s, c)
    ensures var w := ClaimOf(s, c).value.worker;
            && s.workers[w].body.handle == Nowhere
            && (Gone(s.workers[w].body.child) <==> WorkerAct(w, PollErrors) !in run)
  {
    InitialInv();
    RunKeepsInv(INITIAL, run, s);
    var w := ClaimOf(s, c).value.worker;
    assert Claims(s, c, w) && BodyOk(s, w);
    RunLeaks(INITIAL, run, s, w);
  }

  /** A teardown never wedges: until it is joined there is always an enabled step of
      the operation itself, of the worker (without help from the child and closer
      to its end) or of the start that briefly holds the map lock. */
  lemma TeardownNeverWedges(run: seq<Step>, s: State, c: Claimant)
    requires Leads(INITIAL, run, s) && ClaimOf(s, c).Some?
    ensures var w := ClaimOf(s, c).value.worker;
            || CanTearDown(s, c)
            || CanJoin(s, c)
            || CanCleanUp(s, w)
            || InInserting(s)
            || exists act :: CanWorkerAct(s, w, act) && !NeedsChild(act) &&
                             PhasesLeft(Perform(s.workers[w].body, act).pc) < PhasesLeft(s.workers[w].body.pc)
  {
    ReachableInv(run, s);
    var t := ClaimOf(s, c).value;
    var w := t.worker;
    assert Claims(s, c, w) && BodyOk(s, w);
    var body := s.workers[w].body;
    if t.tear == Joining && body.pc != Done && body.pc != CleaningUp {
      JoinedWorkerMoves(body);
      var act :| CanAct(body, act) && !NeedsChild(act);
      ActsShortenTheWorker(body, act);
      assert CanWorkerAct(s, w, act);
    } else if t.tear == Flagged && !CanTearDown(s, c) {
      var act := if body.pc == SlotLocked then ReadFlag else StoreChild;
      ActsShortenTheWorker(body, act);
      assert CanWorkerAct(s, w, act);
    }
  }

  // ----- The one way a child survives its join -----

  lemma {:induction false} LeadsFurther(s: State, run: seq<Step>, s': State, step: Step)
    requires Leads(s, run, s') && Enabled(s', step)
    ensures Leads(s, run + [step], Apply(s', step))
    decreases |run|
  {
    if run == [] {
      assert [step][1..] == [];
    } else {
      LeadsFurther(Apply(s, run[0]), run[1..], s', step);
      assert (run + [step])[1..] == run[1..] + [step];
    }
  }

  ghost predicate Reachable(s: State) {
    exists run :: Leads(INITIAL, run, s)
  }

  lemma ReachableStep(s: State, step: Step)
    requires Reachable(s) && Enabled(s, step)
    ensures Reachable(Apply(s, step))
  {
    var run :| Leads(INITIAL, run, s);
    LeadsFurther(INITIAL, run, s, step);
  }

  /** One worker, alone in the system, at `body`. */
  function Lone(body: Worker): State {
    State(map[0 := LiveWorker("host", 1, body)], map["host" := Supervisor(1, 0)],
      Fence(map["host" := 1], 0), Idle, map[], [Start("host", 1)])
  }

  lemma LoneWorkerIsReachable()
    ensures Reachable(Lone(NEW_WORKER))
  {
    assert Leads(INITIAL, [], INITIAL);
    ReachableStep(INITIAL, BeginStart("host", 1));
    var s1 := INITIAL.(starter := Starting("host", 1, Removing));
    ReachableStep(s1, RemoveForStart);
    var s2 := INITIAL.(starter := Starting("host", 1, Installing));
    ReachableStep(s2, SpawnWorker(0));
    var s3 := INITIAL.(workers := map[0 := LiveWorker("host", 1, NEW_WORKER)], starter := Starting("host", 1, Inserting(0)));
    assert s3 == DoSpawnWorker(s2, 0);
    ReachableStep(s3, InsertWorker);
    var s4 := DoInsertWorker(s3);
    var after := Fence(map["host" := 1], 0);
    assert |s4.fence.lastStarted["host" := 1]| <= FENCE_CAP by {
      assert s4.fence.lastStarted["host" := 1].Keys == {"host"};
    }
    ReachableStep(s4, CommitStart(after));
    assert DoCommitStart(s4, after) == Lone(NEW_WORKER);
  }

  lemma LoneActs(body: Worker, act: Act)
    requires Reachable(Lone(body)) && CanAct(body, act)
    ensures Reachable(Lone(Perform(body, act)))
  {
    ReachableStep(Lone(body), WorkerAct(0, act));
    assert DoWorkerAct(Lone(body), 0, act) == Lone(Perform(body, act));
  }

  /** A concrete run in which `try_wait` fails while the child still runs: a stop
      then joins the worker and returns with the child alive. */
  lemma FailedTryWaitLeavesChildRunning()
    ensures exists s, c :: Reachable(s) && CanJoin(s, c) && s.workers[ClaimOf(s, c).value.worker].body.child == Running
  {
    LoneWorkerIsReachable();
    LoneActs(NEW_WORKER, SpawnChild);
    var b1 := Worker(Spawned, false, Running, WithWorker, false);
    LoneActs(b1, LockSlot);
    LoneActs(b1.(pc := SlotLocked), ReadFlag);
    LoneActs(b1.(pc := FlagClear), StoreChild);
    var b2 := Worker(Reading, false, Running, InSlot, false);
    LoneActs(b2, ReadEndsOnLine);
    LoneActs(b2.(pc := Waiting), TakeForWait);
    LoneActs(b1.(pc := Polling), PollErrors);
    var b3 := Worker(Emptying, false, Running, Nowhere, true);
    LoneActs(b3, TakeAtEnd);
    StopAfterLeak(b3.(pc := CleaningUp));
  }

  /** The lone worker with a stop's teardown at `tear`. */
  function Stopping(body: Worker, tear: Tear): State {
    Lone(body).(supervisors := map[], stops := map[0 := Teardown(0, tear)])
  }

  lemma StopAfterLeak(body: Worker)
    requires Reachable(Lone(body)) && body.pc == CleaningUp && body.handle == Nowhere && body.child == Running
    ensures exists s, c :: Reachable(s) && CanJoin(s, c) && s.workers[ClaimOf(s, c).value.worker].body.child == Running
  {
    ReachableStep(Lone(body), BeginStop(0, "host", 1));
    assert DoBeginStop(Lone(body), 0, "host") == Stopping(body, Claimed);
    var stopped := body.(stop := true);
    StoppingStep(Stopping(body, Claimed), Stopping(stopped, Flagged));
    StoppingStep(Stopping(stopped, Flagged), Stopping(stopped, Joining));
    StopReturns(stopped);
  }

  lemma StopReturns(body: Worker)
    requires Reachable(Stopping(body, Joining)) && body.pc == CleaningUp && body.child == Running
    ensures exists s, c :: Reachable(s) && CanJoin(s, c) && s.workers[ClaimOf(s, c).value.worker].body.child == Running
  {
    var s := Stopping(body, Joining);
    ReachableStep(s, CleanUp(0));
    assert CanJoin(DoCleanUp(s, 0), ByStop(0));
  }

  lemma StoppingStep(s: State, s': State)
    requires Reachable(s) && CanTearDown(s, ByStop(0)) && s' == DoTearDown(s, ByStop(0))
    ensures Reachable(s')
  {
    ReachableStep(s, TearDown(ByStop(0)));
  }
}
