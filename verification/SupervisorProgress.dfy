/**
 A teardown comes to its end: a rank that its own steps and its worker's strictly
 lower, that no step of anyone raises, and a bounded way from any reachable state to
 the join.
 */
module SupervisorProgress {
  import opened Options
  import opened EpochFence
  import opened ChildSlot
  import opened LiveSupervisor
  import opened SupervisorSafety
  import opened SupervisorTheorems

  function TearLeft(tear: Tear): nat {
    match tear
    case Unclaimed => 5
    case Claimed => 4
    case Flagged => 3
    case TookChild => 2
    case Joining => 1
  }

  /** What the teardown and the worker it tears down have left to do. */
  function Rank(s: State, c: Claimant): nat {
    match ClaimOf(s, c)
    case None => 0
    case Some(t) => TearLeft(t.tear) + if t.worker in s.workers then PhasesLeft(s.workers[t.worker].body.pc) else 0
  }

  /** A step of this teardown, or of its worker other than its child dying. */
  predicate Helps(s: State, c: Claimant, step: Step) {
    && ClaimOf(s, c).Some?
    && var w := ClaimOf(s, c).value.worker;
    || step == TearDown(c)
    || step == CleanUp(w)
    || (step.WorkerAct? && step.worker == w && step.act != ChildExits)
  }

  ghost predicate SameTeardown(s: State, c: Claimant, s': State) {
    ClaimOf(s, c).Some? && ClaimOf(s', c).Some? && ClaimOf(s', c).value.worker == ClaimOf(s, c).value.worker
  }

  lemma TearDownLowers(s: State, c: Claimant)
    requires CanTearDown(s, c)
    ensures SameTeardown(s, c, DoTearDown(s, c)) && Rank(DoTearDown(s, c), c) < Rank(s, c)
  {
  }

  lemma OtherTearDownKeeps(s: State, c: Claimant, other: Claimant)
    requires CanTearDown(s, other) && other != c && ClaimOf(s, c).Some?
    ensures SameTeardown(s, c, DoTearDown(s, other)) && Rank(DoTearDown(s, other), c) == Rank(s, c)
  {
  }

  lemma WorkerActLowers(s: State, c: Claimant, w: WorkerId, act: Act)
    requires CanWorkerAct(s, w, act) && ClaimOf(s, c).Some?
    ensures var s' := DoWorkerAct(s, w, act);
            && SameTeardown(s, c, s') && Rank(s', c) <= Rank(s, c)
            && (Helps(s, c, WorkerAct(w, act)) ==> Rank(s', c) < Rank(s, c))
  {
    if act != ChildExits {
      ActsShortenTheWorker(s.workers[w].body, act);
    }
    assert ClaimOf(DoWorkerAct(s, w, act), c) == ClaimOf(s, c);
  }

  lemma CleanUpLowers(s: State, c: Claimant, w: WorkerId)
    requires CanCleanUp(s, w) && ClaimOf(s, c).Some?
    ensures var s' := DoCleanUp(s, w);
            && SameTeardown(s, c, s') && Rank(s', c) <= Rank(s, c)
            && (Helps(s, c, CleanUp(w)) ==> Rank(s', c) < Rank(s, c))
  {
    assert ClaimOf(DoCleanUp(s, w), c) == ClaimOf(s, c);
  }

  /** Whatever anyone does next, a teardown in progress goes on with the same worker
      until its own join, its rank is not raised, and every step of its own or of its
      worker lowers it. */
  lemma NoStepRaisesTheRank(s: State, c: Claimant, step: Step)
    requires ClaimOf(s, c).Some? && ClaimOf(s, c).value.worker in s.workers && Enabled(s, step) && step != Join(c)
    ensures var s' := Apply(s, step);
            && SameTeardown(s, c, s') && Rank(s', c) <= Rank(s, c)
            && (Helps(s, c, step) ==> Rank(s', c) < Rank(s, c))
  {
    match step {
      case TearDown(other) =>
        if other == c {
          TearDownLowers(s, c);
        } else {
          OtherTearDownKeeps(s, c, other);
        }
      case WorkerAct(w, act) => WorkerActLowers(s, c, w, act);
      case CleanUp(w) => CleanUpLowers(s, c, w);
      case _ => assert ClaimOf(Apply(s, step), c) == ClaimOf(s, c);
    }
  }

  function HelpfulSteps(s: State, c: Claimant, step: Step): nat {
    if Helps(s, c, step) then 1 else 0
  }

  /** The steps of a run that help, while the teardown lasts. */
  ghost function HelpIn(s: State, c: Claimant, run: seq<Step>): nat
    decreases |run|
  {
    if run == [] || !Enabled(s, run[0]) || run[0] == Join(c) then 0
    else HelpfulSteps(s, c, run[0]) + HelpIn(Apply(s, run[0]), c, run[1..])
  }

  /** However a run interleaves, no more of its steps help a teardown than its rank: the
      teardown and its worker together take at most 15 steps from claim to join. */
  lemma {:induction false} HelpIsBounded(s: State, c: Claimant, run: seq<Step>, s': State)
    requires Inv(s) && Leads(s, run, s') && ClaimOf(s, c).Some?
    ensures HelpIn(s, c, run) <= Rank(s, c) <= 15
    decreases |run|
  {
    ClaimedWorkerExists(s, c);
    RankIsSmall(s, c);
    if run != [] && run[0] != Join(c) {
      NoStepRaisesTheRank(s, c, run[0]);
      StepKeepsInv(s, run[0]);
      HelpIsBounded(Apply(s, run[0]), c, run[1..], s');
    }
  }

  lemma RankIsSmall(s: State, c: Claimant)
    requires ClaimOf(s, c).Some? ==> ClaimOf(s, c).value.tear != Tear.Unclaimed
    ensures Rank(s, c) <= 15
  {
  }

  lemma ClaimedWorkerExists(s: State, c: Claimant)
    requires Inv(s) && ClaimOf(s, c).Some?
    ensures ClaimOf(s, c).value.worker in s.workers && ClaimOf(s, c).value.tear != Tear.Unclaimed
    ensures Safe(s.workers[ClaimOf(s, c).value.worker].body, ClaimOf(s, c).value.tear)
  {
    var w := ClaimOf(s, c).value.worker;
    assert Claims(s, c, w) && BodyOk(s, w);
  }

  /** All that is left is the worker's clean-up, and a start holds the map lock. */
  predicate WaitsForMap(s: State, c: Claimant) {
    && InInserting(s) && ClaimOf(s, c).Some? && !CanTearDown(s, c)
    && var t := ClaimOf(s, c).value;
    t.tear == Joining && t.worker in s.workers && s.workers[t.worker].body.pc == CleaningUp
  }

  /** Until it is joined, a teardown has a step of its own or of its worker that does
      not wait for the child, or its worker only waits for a start to insert its
      worker and give the map lock back. */
  lemma SomeStepHelps(s: State, c: Claimant) returns (step: Step)
    requires Inv(s) && ClaimOf(s, c).Some? && !CanJoin(s, c)
    ensures Enabled(s, step)
    ensures if WaitsForMap(s, c) then step == InsertWorker
            else Helps(s, c, step) && (step.WorkerAct? ==> !NeedsChild(step.act))
  {
    ClaimedWorkerExists(s, c);
    var t := ClaimOf(s, c).value;
    var body := s.workers[t.worker].body;
    if CanTearDown(s, c) {
      step := TearDown(c);
    } else if t.tear == Flagged {
      step := WorkerAct(t.worker, if body.pc == SlotLocked then ReadFlag else StoreChild);
    } else if body.pc == CleaningUp {
      step := if MapFree(s) then CleanUp(t.worker) else InsertWorker;
    } else {
      JoinedWorkerMoves(body);
      var act :| CanAct(body, act) && !NeedsChild(act);
      step := WorkerAct(t.worker, act);
    }
  }

  /** From every state a run can reach, a teardown can be brought to its join without
      the child's help, in at most two steps for each unit of its rank. */
  lemma TeardownReachesItsJoin(s: State, c: Claimant) returns (run: seq<Step>, s': State)
    requires Inv(s) && ClaimOf(s, c).Some?
    ensures Leads(s, run, s') && SameTeardown(s, c, s') && CanJoin(s', c)
    ensures |run| <= 2 * Rank(s, c)
    ensures forall step :: step in run && step.WorkerAct? ==> !NeedsChild(step.act)
    decreases Rank(s, c), if MapFree(s) then 0 else 1
  {
    if CanJoin(s, c) {
      run, s' := [], s;
    } else {
      ClaimedWorkerExists(s, c);
      var step := SomeStepHelps(s, c);
      var next := Apply(s, step);
      NoStepRaisesTheRank(s, c, step);
      StepKeepsInv(s, step);
      if step == InsertWorker {
        run, s' := CleansUpAndJoins(s, c);
      } else {
        var rest;
        rest, s' := TeardownReachesItsJoin(next, c);
        run := [step] + rest;
        assert run[1..] == rest;
      }
    }
  }

  lemma CleansUpAndJoins(s: State, c: Claimant) returns (run: seq<Step>, s': State)
    requires WaitsForMap(s, c)
    ensures Leads(s, run, s') && SameTeardown(s, c, s') && CanJoin(s', c) && |run| == 2
    ensures forall step :: step in run ==> !step.WorkerAct?
  {
    var w := ClaimOf(s, c).value.worker;
    var freed := Apply(s, InsertWorker);
    assert ClaimOf(freed, c) == ClaimOf(s, c);
    assert Enabled(freed, CleanUp(w));
    run, s' := [InsertWorker, CleanUp(w)], Apply(freed, CleanUp(w));
    assert run[1..] == [CleanUp(w)] && [CleanUp(w)][1..] == [];
    assert ClaimOf(s', c) == ClaimOf(s, c);
  }
}
