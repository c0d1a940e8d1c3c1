/**
 What every interleaving of the live-picker supervisor keeps.
 */
module SupervisorSafety {
  import opened Options
  import opened EpochFence
  import opened ChildSlot
  import opened LiveSupervisor

  // ----- The invariant -----

  predicate IsInserting(s: State, w: WorkerId) {
    InInserting(s) && s.starter.phase.worker == w
  }

  /** Registered in the map, or on its way into it. */
  predicate Standing(s: State, w: WorkerId)
    requires w in s.workers
  {
    Registered(s, w) || IsInserting(s, w)
  }

  /** Every start that has spawned a worker: the committed ones and, while a
      start holds the lock past its spawn, that start. */
  function Admitted(s: State): seq<Start> {
    if InInserting(s) || InCommitting(s) then
      s.honoured + [Start(s.starter.key, s.starter.epoch)]
    else
      s.honoured
  }

  ghost predicate GateInv(s: State) {
    && Refines(s.fence, s.honoured)
    && (s.starter.Starting? ==> EpochAdvances(s.fence, s.starter.key, s.starter.epoch))
    && (InTearing(s) || InInstalling(s) || InInserting(s) ==> s.starter.key !in s.supervisors)
  }

  predicate SameIdentity(v: LiveWorker, w: LiveWorker) {
    v.key == w.key && v.epoch == w.epoch
  }

  /** Every worker belongs to an admitted start, and no two workers of a key
      share an epoch. */
  ghost predicate EpochInv(s: State) {
    && (forall w :: w in s.workers ==> Start(s.workers[w].key, s.workers[w].epoch) in Admitted(s))
    && (forall v, w :: v in s.workers && w in s.workers && SameIdentity(s.workers[v], s.workers[w]) ==> v == w)
    && (InInserting(s) || InCommitting(s) ==>
          && s.starter.phase.worker in s.workers
          && s.workers[s.starter.phase.worker].key == s.starter.key
          && s.workers[s.starter.phase.worker].epoch == s.starter.epoch)
  }

  ghost predicate SupervisorOk(s: State, key: SourceKey)
    requires key in s.supervisors
  {
    var sup := s.supervisors[key];
    && sup.worker in s.workers
    && s.workers[sup.worker].key == key
    && s.workers[sup.worker].epoch == sup.epoch
    && Highest(Admitted(s), key, sup.epoch)
  }

  ghost predicate SupervisorInv(s: State) {
    forall key :: key in s.supervisors ==> SupervisorOk(s, key)
  }

  /** A claimed worker has left the map, and no other operation claims it. */
  ghost predicate ClaimInv(s: State) {
    && (forall c, w :: Claims(s, c, w) ==> w in s.workers && !Standing(s, w))
    && (forall c, d, w :: Claims(s, c, w) && Claims(s, d, w) ==> c == d)
  }

  predicate Ended(w: Worker) {
    w.pc == Done && w.handle == Nowhere && (Gone(w.child) <==> !w.leaked)
  }

  ghost predicate Unclaimed(s: State, w: WorkerId) {
    forall c :: !Claims(s, c, w)
  }

  ghost predicate BodyOk(s: State, w: WorkerId)
    requires w in s.workers
  {
    var body := s.workers[w].body;
    && (Standing(s, w) ==> Safe(body, Tear.Unclaimed) && body.pc != Done)
    && (forall c :: Claims(s, c, w) ==> var tear := ClaimOf(s, c).value.tear; tear != Tear.Unclaimed && Safe(body, tear))
    && (!Standing(s, w) && Unclaimed(s, w) ==> Ended(body))
  }

  ghost predicate BodyInv(s: State) {
    forall w :: w in s.workers ==> BodyOk(s, w)
  }

  ghost predicate StructInv(s: State) {
    GateInv(s) && EpochInv(s) && SupervisorInv(s) && ClaimInv(s)
  }

  ghost predicate Inv(s: State) {
    StructInv(s) && BodyInv(s)
  }

  lemma InitialInv()
    ensures Inv(INITIAL)
  {
  }

  // ----- Steps that change one body -----

  /** Nothing but the bodies and the tears differs. */
  ghost predicate SameStructure(s: State, s': State) {
    && s'.supervisors == s.supervisors && s'.fence == s.fence && s'.honoured == s.honoured
    && s'.workers.Keys == s.workers.Keys
    && (forall w :: w in s.workers ==> SameIdentity(s'.workers[w], s.workers[w]))
    && (s'.starter == s.starter
        || (InTearing(s) && InTearing(s') && s'.starter.key == s.starter.key && s'.starter.epoch == s.starter.epoch))
    && (forall c, w :: Claims(s', c, w) <==> Claims(s, c, w))
  }

  lemma SameStructureKeepsInv(s: State, s': State)
    requires StructInv(s) && SameStructure(s, s')
    ensures StructInv(s')
    ensures forall w :: w in s.workers ==> (Standing(s', w) <==> Standing(s, w))
  {
    assert Admitted(s') == Admitted(s);
    forall key | key in s'.supervisors
      ensures SupervisorOk(s', key)
    {
      assert SupervisorOk(s, key);
    }
  }

  /** A worker whose body, standing and claims did not change is still as it was. */
  lemma BodyCarries(s: State, s': State, w: WorkerId)
    requires w in s.workers && w in s'.workers && BodyOk(s, w)
    requires s'.workers[w].body == s.workers[w].body
    requires Standing(s', w) <==> Standing(s, w)
    requires forall c :: Claims(s, c, w) || Claims(s', c, w) ==> ClaimOf(s', c) == ClaimOf(s, c)
    ensures BodyOk(s', w)
  {
    assert forall c :: Claims(s', c, w) <==> Claims(s, c, w);
  }

  lemma EndedStaysEnded(w: Worker, act: Act)
    requires Ended(w) && CanAct(w, act)
    ensures Ended(Perform(w, act))
  {
  }

  lemma ActedBodyOk(s: State, w: WorkerId, act: Act)
    requires CanWorkerAct(s, w, act) && BodyOk(s, w)
    ensures BodyOk(DoWorkerAct(s, w, act), w)
  {
    var s' := DoWorkerAct(s, w, act);
    var body := s.workers[w].body;
    assert s'.workers[w].body == Perform(body, act);
    assert Standing(s', w) <==> Standing(s, w);
    assert forall c :: Claims(s', c, w) <==> Claims(s, c, w);
    if Standing(s, w) {
      ActKeepsSafe(body, Tear.Unclaimed, act);
    }
    forall c | Claims(s, c, w)
      ensures Safe(Perform(body, act), ClaimOf(s, c).value.tear)
    {
      ActKeepsSafe(body, ClaimOf(s, c).value.tear, act);
    }
    if Ended(body) {
      EndedStaysEnded(body, act);
    }
  }

  lemma ActedBodies(s: State, w: WorkerId, act: Act)
    requires BodyInv(s) && CanWorkerAct(s, w, act)
    ensures BodyInv(DoWorkerAct(s, w, act))
  {
    var s' := DoWorkerAct(s, w, act);
    forall v | v in s'.workers
      ensures BodyOk(s', v)
    {
      assert BodyOk(s, v);
      if v == w {
        ActedBodyOk(s, w, act);
      } else {
        BodyCarries(s, s', v);
      }
    }
  }

  lemma ActedStructure(s: State, w: WorkerId, act: Act)
    requires CanWorkerAct(s, w, act)
    ensures SameStructure(s, DoWorkerAct(s, w, act))
  {
    var s' := DoWorkerAct(s, w, act);
    assert forall c :: ClaimOf(s', c) == ClaimOf(s, c);
  }

  lemma WorkerActKeepsInv(s: State, w: WorkerId, act: Act)
    requires Inv(s) && CanWorkerAct(s, w, act)
    ensures Inv(DoWorkerAct(s, w, act))
  {
    ActedStructure(s, w, act);
    SameStructureKeepsInv(s, DoWorkerAct(s, w, act));
    ActedBodies(s, w, act);
  }

  lemma TornBodyOk(s: State, c: Claimant, w: WorkerId)
    requires CanTearDown(s, c) && Claims(s, c, w) && BodyOk(s, w) && ClaimInv(s)
    ensures BodyOk(DoTearDown(s, c), w)
  {
    var s' := DoTearDown(s, c);
    var t := ClaimOf(s, c).value;
    TearKeepsSafe(s.workers[w].body, t.tear);
    var (body, tear) := TearStep(s.workers[w].body, t.tear);
    assert s'.workers[w].body == body;
    assert ClaimOf(s', c) == Some(Teardown(w, tear));
    assert forall d :: d != c ==> ClaimOf(s', d) == ClaimOf(s, d);
    assert forall d :: Claims(s', d, w) <==> Claims(s, d, w);
    assert !Standing(s', w);
  }

  lemma TornBodies(s: State, c: Claimant)
    requires BodyInv(s) && ClaimInv(s) && CanTearDown(s, c)
    ensures BodyInv(DoTearDown(s, c))
  {
    var s' := DoTearDown(s, c);
    var w := ClaimOf(s, c).value.worker;
    assert forall d :: d != c ==> ClaimOf(s', d) == ClaimOf(s, d);
    forall v | v in s'.workers
      ensures BodyOk(s', v)
    {
      assert BodyOk(s, v);
      if v == w {
        TornBodyOk(s, c, w);
      } else {
        BodyCarries(s, s', v);
      }
    }
  }

  lemma TornStructure(s: State, c: Claimant)
    requires CanTearDown(s, c)
    ensures SameStructure(s, DoTearDown(s, c))
  {
    var s' := DoTearDown(s, c);
    assert forall d :: d != c ==> ClaimOf(s', d) == ClaimOf(s, d);
    assert forall d, v :: Claims(s', d, v) <==> Claims(s, d, v);
  }

  lemma TearDownKeepsInv(s: State, c: Claimant)
    requires Inv(s) && CanTearDown(s, c)
    ensures Inv(DoTearDown(s, c))
  {
    TornStructure(s, c);
    SameStructureKeepsInv(s, DoTearDown(s, c));
    TornBodies(s, c);
  }

  /** Claims that only go away, over workers that stand no more than before. */
  lemma ClaimsShrink(s: State, s': State)
    requires ClaimInv(s) && s.workers.Keys <= s'.workers.Keys
    requires forall c :: ClaimOf(s', c) == ClaimOf(s, c) || ClaimOf(s', c) == None
    requires forall v :: v in s.workers && Standing(s', v) ==> Standing(s, v)
    ensures ClaimInv(s')
    ensures forall c, v :: Claims(s', c, v) ==> Claims(s, c, v)
  {
    forall c, v | Claims(s', c, v)
      ensures Claims(s, c, v)
    {
      assert ClaimOf(s', c) == ClaimOf(s, c);
    }
  }

  // ----- Steps of a start -----

  lemma BeginStartKeepsInv(s: State, key: SourceKey, epoch: Epoch)
    requires Inv(s) && CanBeginStart(s, key, epoch)
    ensures Inv(DoBeginStart(s, key, epoch))
  {
    var s' := DoBeginStart(s, key, epoch);
    StarterMoves(s, s');
  }

  lemma SpawnFailsKeepsInv(s: State)
    requires Inv(s) && InInstalling(s)
    ensures Inv(DoSpawnFails(s))
  {
    StarterMoves(s, DoSpawnFails(s));
  }

  /** A step of the starter that touches neither workers nor claims. */
  ghost predicate OnlyStarterMoves(s: State, s': State) {
    && s'.workers == s.workers && s'.supervisors == s.supervisors && s'.stops == s.stops
    && !InTearing(s) && !InTearing(s') && !InInserting(s) && !InInserting(s') && !InCommitting(s')
    && Admitted(s') == Admitted(s)
  }

  lemma MovedStruct(s: State, s': State)
    requires EpochInv(s) && SupervisorInv(s) && ClaimInv(s) && OnlyStarterMoves(s, s')
    ensures EpochInv(s') && SupervisorInv(s') && ClaimInv(s')
  {
    assert forall c :: ClaimOf(s', c) == ClaimOf(s, c);
    ClaimsShrink(s, s');
    forall key | key in s'.supervisors
      ensures SupervisorOk(s', key)
    {
      assert SupervisorOk(s, key);
    }
  }

  lemma MovedBodies(s: State, s': State)
    requires BodyInv(s) && OnlyStarterMoves(s, s')
    ensures BodyInv(s')
  {
    assert forall c :: ClaimOf(s', c) == ClaimOf(s, c);
    forall w | w in s'.workers
      ensures BodyOk(s', w)
    {
      assert BodyOk(s, w);
      BodyCarries(s, s', w);
    }
  }

  lemma StarterMoves(s: State, s': State)
    requires Inv(s) && GateInv(s') && OnlyStarterMoves(s, s')
    ensures Inv(s')
  {
    MovedStruct(s, s');
    MovedBodies(s, s');
  }

  lemma CommitStartKeepsInv(s: State, after: Fence)
    requires Inv(s) && CanCommitStart(s, after)
    ensures Inv(DoCommitStart(s, after))
  {
    CommitRefines(s.fence, s.honoured, Start(s.starter.key, s.starter.epoch), after);
    StarterMoves(s, DoCommitStart(s, after));
  }

  // ----- Taking a supervisor out of the map -----

  /** `taker` removed the supervisor of `key` and now claims its worker. */
  ghost predicate Takes(s: State, s': State, taker: Claimant, key: SourceKey) {
    && key in s.supervisors
    && s'.workers == s.workers && s'.fence == s.fence && s'.honoured == s.honoured
    && s'.supervisors == s.supervisors - {key}
    && ClaimOf(s, taker) == None
    && ClaimOf(s', taker) == Some(Teardown(s.supervisors[key].worker, Claimed))
    && (forall c :: c != taker ==> ClaimOf(s', c) == ClaimOf(s, c))
    && (InInserting(s') <==> InInserting(s)) && (InCommitting(s') <==> InCommitting(s))
    && (InInserting(s) || InCommitting(s) ==> s'.starter == s.starter)
  }

  lemma TakenStands(s: State, s': State, taker: Claimant, key: SourceKey, v: WorkerId)
    requires SupervisorInv(s) && Takes(s, s', taker, key) && v in s.workers
    requires MapFree(s)
    ensures Standing(s', v) <==> Standing(s, v) && v != s.supervisors[key].worker
  {
    assert SupervisorOk(s, key);
  }

  lemma TakenClaims(s: State, s': State, taker: Claimant, key: SourceKey)
    requires SupervisorInv(s) && ClaimInv(s) && Takes(s, s', taker, key) && MapFree(s)
    ensures forall c, v :: Claims(s', c, v) <==> Claims(s, c, v) || (c == taker && v == s.supervisors[key].worker)
    ensures ClaimInv(s')
  {
    var w := s.supervisors[key].worker;
    assert SupervisorOk(s, key);
    assert Standing(s, w);
    assert forall c :: !Claims(s, c, w);
    assert forall c, v :: Claims(s', c, v) <==> Claims(s, c, v) || (c == taker && v == w);
    forall c, v | Claims(s', c, v)
      ensures v in s'.workers && !Standing(s', v)
    {
      assert Claims(s, c, v) || v == w;
      TakenStands(s, s', taker, key, v);
    }
  }

  lemma TakenSupervisors(s: State, s': State, taker: Claimant, key: SourceKey)
    requires SupervisorInv(s) && Takes(s, s', taker, key) && EpochInv(s)
    ensures SupervisorInv(s') && EpochInv(s')
  {
    assert Admitted(s') == Admitted(s);
    forall k | k in s'.supervisors
      ensures SupervisorOk(s', k)
    {
      assert SupervisorOk(s, k);
    }
  }

  lemma TakeKeepsInv(s: State, s': State, taker: Claimant, key: SourceKey)
    requires Inv(s) && Takes(s, s', taker, key) && GateInv(s') && MapFree(s)
    ensures Inv(s')
  {
    var w := s.supervisors[key].worker;
    TakenSupervisors(s, s', taker, key);
    TakenClaims(s, s', taker, key);
    forall v | v in s'.workers
      ensures BodyOk(s', v)
    {
      TakenStands(s, s', taker, key, v);
      if v != w {
        BodyCarries(s, s', v);
      } else {
        assert BodyOk(s, w) && Standing(s, w) by { assert SupervisorOk(s, key); }
        assert Claims(s', taker, w);
        assert forall c :: Claims(s', c, w) ==> c == taker;
      }
    }
  }

  lemma RemoveForStartKeepsInv(s: State)
    requires Inv(s) && CanRemoveForStart(s)
    ensures Inv(DoRemoveForStart(s))
  {
    var s' := DoRemoveForStart(s);
    if s.starter.key in s.supervisors {
      TakeKeepsInv(s, s', ByStart, s.starter.key);
    } else {
      StarterMoves(s, s');
    }
  }

  lemma BeginStopKeepsInv(s: State, op: OpId, key: SourceKey, epoch: Epoch)
    requires Inv(s) && CanBeginStop(s, op, key, epoch)
    ensures Inv(DoBeginStop(s, op, key))
  {
    TakeKeepsInv(s, DoBeginStop(s, op, key), ByStop(op), key);
  }

  // ----- Installing a worker -----

  /** The workers' epochs and the supervisors after the starter spawned `w`. */
  lemma SpawnedStruct(s: State, w: WorkerId)
    requires StructInv(s) && CanSpawnWorker(s, w)
    ensures EpochInv(DoSpawnWorker(s, w)) && SupervisorInv(DoSpawnWorker(s, w))
  {
    var s' := DoSpawnWorker(s, w);
    var start := Start(s.starter.key, s.starter.epoch);
    AdmittedIsNew(s.fence, s.honoured, start);
    assert Admitted(s') == s.honoured + [start];
    assert start in Admitted(s') by { assert Admitted(s')[|s.honoured|] == start; }
    forall v | v in s.workers
      ensures !SameIdentity(s.workers[v], s'.workers[w])
    {
      assert Start(s.workers[v].key, s.workers[v].epoch) in s.honoured;
    }
    forall key | key in s'.supervisors
      ensures SupervisorOk(s', key)
    {
      assert SupervisorOk(s, key);
    }
  }

  lemma SpawnedBodies(s: State, w: WorkerId)
    requires BodyInv(s) && ClaimInv(s) && CanSpawnWorker(s, w)
    ensures BodyInv(DoSpawnWorker(s, w)) && ClaimInv(DoSpawnWorker(s, w))
  {
    var s' := DoSpawnWorker(s, w);
    assert forall c :: ClaimOf(s', c) == ClaimOf(s, c);
    assert forall v :: v in s.workers ==> (Standing(s', v) <==> Standing(s, v));
    ClaimsShrink(s, s');
    assert forall c :: !Claims(s', c, w);
    forall v | v in s'.workers
      ensures BodyOk(s', v)
    {
      if v != w {
        assert BodyOk(s, v);
        BodyCarries(s, s', v);
      }
    }
  }

  lemma SpawnWorkerKeepsInv(s: State, w: WorkerId)
    requires Inv(s) && CanSpawnWorker(s, w)
    ensures Inv(DoSpawnWorker(s, w))
  {
    SpawnedStruct(s, w);
    SpawnedBodies(s, w);
  }

  lemma InsertedStruct(s: State)
    requires StructInv(s) && InInserting(s)
    ensures EpochInv(DoInsertWorker(s)) && SupervisorInv(DoInsertWorker(s))
  {
    var s' := DoInsertWorker(s);
    var start := Start(s.starter.key, s.starter.epoch);
    AdmittedIsNew(s.fence, s.honoured, start);
    assert Admitted(s') == Admitted(s) == s.honoured + [start];
    forall key | key in s'.supervisors
      ensures SupervisorOk(s', key)
    {
      if key != s.starter.key {
        assert SupervisorOk(s, key);
      } else {
        assert start in Admitted(s') by { assert Admitted(s')[|s.honoured|] == start; }
      }
    }
  }

  lemma InsertedStands(s: State, v: WorkerId)
    requires InInserting(s) && s.starter.key !in s.supervisors && s.starter.phase.worker in s.workers
    requires s.workers[s.starter.phase.worker].key == s.starter.key && v in s.workers
    ensures Standing(DoInsertWorker(s), v) <==> Standing(s, v)
  {
  }

  lemma InsertedBodies(s: State)
    requires BodyInv(s) && ClaimInv(s) && EpochInv(s)
    requires InInserting(s) && s.starter.key !in s.supervisors
    ensures BodyInv(DoInsertWorker(s)) && ClaimInv(DoInsertWorker(s))
  {
    var s' := DoInsertWorker(s);
    assert forall c :: ClaimOf(s', c) == ClaimOf(s, c);
    forall v | v in s.workers
      ensures (Standing(s', v) <==> Standing(s, v)) && BodyOk(s', v)
    {
      InsertedStands(s, v);
      assert BodyOk(s, v);
      BodyCarries(s, s', v);
    }
    ClaimsShrink(s, s');
  }

  lemma InsertWorkerKeepsInv(s: State)
    requires Inv(s) && InInserting(s)
    ensures Inv(DoInsertWorker(s))
  {
    InsertedStruct(s);
    InsertedBodies(s);
  }

  // ----- Ends -----

  lemma JoinedStruct(s: State, c: Claimant)
    requires StructInv(s) && CanJoin(s, c)
    ensures StructInv(DoJoin(s, c))
    ensures forall d :: ClaimOf(DoJoin(s, c), d) == if d == c then None else ClaimOf(s, d)
    ensures forall v :: v in s.workers ==> (Standing(DoJoin(s, c), v) <==> Standing(s, v))
  {
    var s' := DoJoin(s, c);
    ClaimsShrink(s, s');
    assert Admitted(s') == Admitted(s);
    forall key | key in s'.supervisors
      ensures SupervisorOk(s', key)
    {
      assert SupervisorOk(s, key);
    }
  }

  lemma JoinKeepsInv(s: State, c: Claimant)
    requires Inv(s) && CanJoin(s, c)
    ensures Inv(DoJoin(s, c))
  {
    var s' := DoJoin(s, c);
    var w := ClaimOf(s, c).value.worker;
    JoinedStruct(s, c);
    assert forall d :: Claims(s', d, w) ==> Claims(s, d, w) && d != c;
    assert Claims(s, c, w) && BodyOk(s, w) && Ended(s.workers[w].body);
    forall v | v in s'.workers
      ensures BodyOk(s', v)
    {
      if v != w {
        assert forall d :: Claims(s, d, v) || Claims(s', d, v) ==> d != c;
        BodyCarries(s, s', v);
      }
    }
  }

  lemma CleanedStands(s: State, w: WorkerId, v: WorkerId)
    requires CanCleanUp(s, w) && v in s.workers
    ensures Standing(DoCleanUp(s, w), v) <==> Standing(s, v) && v != w
  {
  }

  lemma CleanedSupervisors(s: State, w: WorkerId)
    requires SupervisorInv(s) && CanCleanUp(s, w)
    ensures SupervisorInv(DoCleanUp(s, w))
  {
    var s' := DoCleanUp(s, w);
    assert Admitted(s') == Admitted(s);
    forall key | key in s'.supervisors
      ensures SupervisorOk(s', key)
    {
      assert SupervisorOk(s, key);
    }
  }

  lemma CleanedGate(s: State, w: WorkerId)
    requires GateInv(s) && CanCleanUp(s, w)
    ensures GateInv(DoCleanUp(s, w))
  {
  }

  lemma CleanedEpochs(s: State, w: WorkerId)
    requires EpochInv(s) && CanCleanUp(s, w)
    ensures EpochInv(DoCleanUp(s, w))
  {
    var s' := DoCleanUp(s, w);
    assert Admitted(s') == Admitted(s);
    assert forall v :: v in s.workers ==> SameIdentity(s'.workers[v], s.workers[v]);
  }

  /** What cleaning up `w` does to the bodies, the claims and the standing. */
  ghost predicate CleansUp(s: State, w: WorkerId, s': State) {
    && w in s.workers && s.workers[w].body.pc == CleaningUp
    && s'.workers.Keys == s.workers.Keys
    && s'.workers[w].body == s.workers[w].body.(pc := Done)
    && (forall v :: v in s.workers && v != w ==> s'.workers[v] == s.workers[v])
    && (forall c :: ClaimOf(s', c) == ClaimOf(s, c))
    && (forall v :: v in s.workers ==> (Standing(s', v) <==> Standing(s, v) && v != w))
  }

  lemma CleanedBodyOk(s: State, w: WorkerId, s': State)
    requires CleansUp(s, w, s') && BodyOk(s, w)
    ensures BodyOk(s', w)
  {
    assert forall c :: Claims(s', c, w) <==> Claims(s, c, w);
  }

  lemma CleanedBodies(s: State, w: WorkerId, s': State)
    requires BodyInv(s) && CleansUp(s, w, s')
    ensures BodyInv(s')
  {
    forall v | v in s'.workers
      ensures BodyOk(s', v)
    {
      assert BodyOk(s, v);
      if v == w {
        CleanedBodyOk(s, w, s');
      } else {
        BodyCarries(s, s', v);
      }
    }
  }

  lemma CleanedFrame(s: State, w: WorkerId)
    requires CanCleanUp(s, w)
    ensures CleansUp(s, w, DoCleanUp(s, w))
  {
    forall v | v in s.workers
      ensures Standing(DoCleanUp(s, w), v) <==> Standing(s, v) && v != w
    {
      CleanedStands(s, w, v);
    }
  }

  /** At its end the worker leaves the map if it is still the one registered;
      a newer worker of the same key stays. */
  lemma CleanUpKeepsInv(s: State, w: WorkerId)
    requires Inv(s) && CanCleanUp(s, w)
    ensures Inv(DoCleanUp(s, w))
  {
    CleanedSupervisors(s, w);
    CleanedGate(s, w);
    CleanedEpochs(s, w);
    CleanedFrame(s, w);
    ClaimsShrink(s, DoCleanUp(s, w));
    CleanedBodies(s, w, DoCleanUp(s, w));
  }

  lemma StepKeepsInv(s: State, step: Step)
    requires Inv(s) && Enabled(s, step)
    ensures Inv(Apply(s, step))
  {
    match step {
      case BeginStart(key, epoch) => BeginStartKeepsInv(s, key, epoch);
      case RemoveForStart => RemoveForStartKeepsInv(s);
      case SpawnWorker(w) => SpawnWorkerKeepsInv(s, w);
      case SpawnWorkerFails => SpawnFailsKeepsInv(s);
      case InsertWorker => InsertWorkerKeepsInv(s);
      case CommitStart(after) => CommitStartKeepsInv(s, after);
      case BeginStop(op, key, epoch) => BeginStopKeepsInv(s, op, key, epoch);
      case TearDown(c) => TearDownKeepsInv(s, c);
      case Join(c) => JoinKeepsInv(s, c);
      case WorkerAct(w, act) => WorkerActKeepsInv(s, w, act);
      case CleanUp(w) => CleanUpKeepsInv(s, w);
    }
  }
}
