/**
 The two halves of the live protocol together: the frontend issues starts with rising
 epochs (desktop/src/effect/LiveConnection.ts:247-257), they reach the backend in any
 order, and its supervisor (desktop/src-tauri/src/subscribe.rs:191-263) honours or
 ignores each of them.
 */
module LiveProtocol {
  import opened Options
  import opened EpochFence
  import opened FenceCounting
  import opened ChildSlot
  import opened LiveSupervisor
  import opened SupervisorSafety
  import opened SupervisorTheorems
  import LiveFrames

  datatype Protocol = Protocol(
    backend: State,
    issued: set<Start>,
    inFlight: set<Start>,  // issued, and not yet at the backend
    ignored: set<Start>,   // turned away by the fence; the caller is not told
    failed: set<Start>)    // no worker could be spawned

  const NOTHING_YET := Protocol(INITIAL, {}, {}, {}, {})

  datatype Move =
    | Issue(start: Start)
    | Deliver(start: Start)
    | Work(step: Step)     // any other step of the backend

  ghost predicate CanMove(p: Protocol, move: Move) {
    match move
    case Issue(start) => start.epoch > 0 && forall s :: s in p.issued ==> s.epoch < start.epoch
    case Deliver(start) => start in p.inFlight && p.backend.starter.Idle?
    case Work(step) => !step.BeginStart? && Enabled(p.backend, step)
  }

  function Underway(s: State): set<Start> {
    if s.starter.Starting? then {Start(s.starter.key, s.starter.epoch)} else {}
  }

  ghost function Moved(p: Protocol, move: Move): Protocol
    requires CanMove(p, move)
  {
    match move
    case Issue(start) => p.(issued := p.issued + {start}, inFlight := p.inFlight + {start})
    case Deliver(start) =>
      if EpochAdvances(p.backend.fence, start.key, start.epoch) then
        p.(backend := DoBeginStart(p.backend, start.key, start.epoch), inFlight := p.inFlight - {start})
      else
        p.(ignored := p.ignored + {start}, inFlight := p.inFlight - {start})
    case Work(step) =>
      p.(backend := Apply(p.backend, step),
      failed := if step.SpawnWorkerFails? then p.failed + Underway(p.backend) else p.failed)
  }

  /** `run` leads from `p` to `p'`. */
  ghost predicate Runs(p: Protocol, run: seq<Move>, p': Protocol)
    decreases |run|
  {
    if run == [] then p' == p else CanMove(p, run[0]) && Runs(Moved(p, run[0]), run[1..], p')
  }

  // ----- Where each start is -----

  predicate Honoured(s: State, start: Start) {
    start in s.honoured
  }

  datatype Place = OnItsWay | TurnedAway | Unspawned | BeingServed | InHistory

  predicate At(p: Protocol, start: Start, place: Place) {
    match place
    case OnItsWay => start in p.inFlight
    case TurnedAway => start in p.ignored
    case Unspawned => start in p.failed
    case BeingServed => start in Underway(p.backend)
    case InHistory => Honoured(p.backend, start)
  }

  ghost predicate Accounted(p: Protocol) {
    && (forall start, i, j :: At(p, start, i) && At(p, start, j) ==> i == j)
    && (forall start :: start in p.issued <==> exists i :: At(p, start, i))
  }

  ghost predicate EpochsApart(p: Protocol) {
    && (forall a, b :: a in p.issued && b in p.issued && a.epoch == b.epoch ==> a == b)
    && (forall a :: a in p.issued ==> a.epoch > 0)
  }

  /** A newer start of its own source was honoured, or newer ones of more than 64. */
  ghost predicate Outrun(history: seq<Start>, start: Start) {
    || (exists s :: s in history && s.key == start.key && s.epoch > start.epoch)
    || |NewerKeys(history, start.epoch)| > FENCE_CAP
  }

  ghost predicate IgnoredWereOutrun(p: Protocol) {
    forall start :: start in p.ignored ==> Outrun(p.backend.honoured, start)
  }

  ghost predicate ProtocolInv(p: Protocol) {
    && Inv(p.backend) && FullAboveFloor(p.backend.fence, p.backend.honoured)
    && Accounted(p) && EpochsApart(p) && IgnoredWereOutrun(p)
  }

  lemma NothingYetInv()
    ensures ProtocolInv(NOTHING_YET)
  {
    InitialInv();
  }

  /** Only commits and failing spawns change where starts are. */
  lemma OthersMoveNoStart(s: State, step: Step)
    requires Enabled(s, step) && !step.BeginStart? && !step.CommitStart? && !step.SpawnWorkerFails?
    ensures var s' := Apply(s, step);
            s'.fence == s.fence && s'.honoured == s.honoured && Underway(s') == Underway(s)
  {
    match step {
      case TearDown(c) => TornStarts(s, c);
      case WorkerAct(w, act) => ActedStructure(s, w, act);
      case CleanUp(w) => CleanedFrame(s, w);
      case _ =>
    }
  }

  lemma TornStarts(s: State, c: Claimant)
    requires CanTearDown(s, c)
    ensures var s' := DoTearDown(s, c);
            s'.fence == s.fence && s'.honoured == s.honoured && Underway(s') == Underway(s)
  {
  }

  lemma LongerHistoryOutruns(history: seq<Start>, more: Start, start: Start)
    requires Outrun(history, start)
    ensures Outrun(history + [more], start)
  {
    if s :| s in history && s.key == start.key && s.epoch > start.epoch {
      assert s in history + [more];
    } else {
      assert NewerKeys(history, start.epoch) <= NewerKeys(history + [more], start.epoch);
      SubsetSize(NewerKeys(history, start.epoch), NewerKeys(history + [more], start.epoch));
    }
  }

  lemma IssueAccounts(p: Protocol, start: Start)
    requires Accounted(p) && start !in p.issued
    ensures Accounted(p.(issued := p.issued + {start}, inFlight := p.inFlight + {start}))
  {
    var p' := p.(issued := p.issued + {start}, inFlight := p.inFlight + {start});
    assert forall i :: !At(p, start, i);
    assert At(p', start, OnItsWay);
    forall s, i
      ensures At(p', s, i) <==> At(p, s, i) || (s == start && i == OnItsWay)
    {
    }
    assert forall s :: s in p.issued ==> exists i :: At(p, s, i) && At(p', s, i);
  }

  lemma IssueKeepsInv(p: Protocol, start: Start)
    requires ProtocolInv(p) && CanMove(p, Issue(start))
    ensures ProtocolInv(Moved(p, Issue(start)))
  {
    IssueAccounts(p, start);
  }

  /** Whether a start that arrives now is honoured, by the history alone. */
  lemma ArrivalIff(p: Protocol, start: Start)
    requires ProtocolInv(p) && start in p.inFlight
    ensures EpochAdvances(p.backend.fence, start.key, start.epoch) <==> !Outrun(p.backend.honoured, start)
  {
    var history := p.backend.honoured;
    assert At(p, start, OnItsWay);
    forall s | s in history
      ensures s.epoch != start.epoch
    {
      assert At(p, s, InHistory);
      assert s in p.issued && start in p.issued;
    }
    GateCountsNewerKeys(p.backend.fence, history, start.key, start.epoch);
  }

  lemma DeliverAccounts(p: Protocol, start: Start, to: Place)
    requires Accounted(p) && start in p.inFlight && p.backend.starter.Idle? && to in {BeingServed, TurnedAway}
    ensures if to == BeingServed then
              Accounted(p.(backend := DoBeginStart(p.backend, start.key, start.epoch), inFlight := p.inFlight - {start}))
            else Accounted(p.(ignored := p.ignored + {start}, inFlight := p.inFlight - {start}))
  {
    var p' := if to == BeingServed then
      p.(backend := DoBeginStart(p.backend, start.key, start.epoch), inFlight := p.inFlight - {start})
    else p.(ignored := p.ignored + {start}, inFlight := p.inFlight - {start});
    assert At(p, start, OnItsWay);
    StartGoes(p, p', start, OnItsWay, to);
  }

  lemma DeliverKeepsInv(p: Protocol, start: Start)
    requires ProtocolInv(p) && CanMove(p, Deliver(start))
    ensures ProtocolInv(Moved(p, Deliver(start)))
  {
    ArrivalIff(p, start);
    if EpochAdvances(p.backend.fence, start.key, start.epoch) {
      DeliverAccounts(p, start, BeingServed);
      StepKeepsInv(p.backend, BeginStart(start.key, start.epoch));
    } else {
      DeliverAccounts(p, start, TurnedAway);
    }
  }

  /** One start changes its place and all others stay. */
  lemma StartGoes(p: Protocol, p': Protocol, start: Start, from: Place, to: Place)
    requires Accounted(p) && p'.issued == p.issued && At(p, start, from)
    requires forall s, i :: At(p', s, i) <==> (At(p, s, i) && !(s == start && i == from)) || (s == start && i == to)
    ensures Accounted(p')
  {
    assert At(p', start, to);
    forall s
      ensures s in p'.issued <==> exists i :: At(p', s, i)
    {
      if s != start && s in p.issued {
        var i :| At(p, s, i);
        assert At(p', s, i);
      }
      if s != start && exists i :: At(p', s, i) {
        var i :| At(p', s, i);
        assert At(p, s, i);
      }
    }
  }

  lemma CommitAccounts(p: Protocol, p': Protocol, start: Start)
    requires Accounted(p) && p'.issued == p.issued && p'.inFlight == p.inFlight && p'.ignored == p.ignored && p'.failed == p.failed
    requires Underway(p.backend) == {start} && Underway(p'.backend) == {}
    requires p'.backend.honoured == p.backend.honoured + [start]
    ensures Accounted(p')
  {
    assert At(p, start, BeingServed);
    StartGoes(p, p', start, BeingServed, InHistory);
  }

  lemma CommitOutruns(p: Protocol, p': Protocol, start: Start)
    requires IgnoredWereOutrun(p) && p'.ignored == p.ignored && p'.backend.honoured == p.backend.honoured + [start]
    ensures IgnoredWereOutrun(p')
  {
    forall r | r in p'.ignored
      ensures Outrun(p'.backend.honoured, r)
    {
      LongerHistoryOutruns(p.backend.honoured, start, r);
    }
  }

  lemma CommitKeepsBackend(s: State, after: Fence)
    requires Inv(s) && CanCommitStart(s, after) && FullAboveFloor(s.fence, s.honoured)
    ensures Inv(DoCommitStart(s, after)) && FullAboveFloor(DoCommitStart(s, after).fence, DoCommitStart(s, after).honoured)
  {
    StepKeepsInv(s, CommitStart(after));
    CommitFillsFence(s, after, Start(s.starter.key, s.starter.epoch));
  }

  lemma CommitKeepsStarts(p: Protocol, after: Fence)
    requires InCommitting(p.backend) && Accounted(p) && EpochsApart(p) && IgnoredWereOutrun(p)
    ensures var p' := p.(backend := DoCommitStart(p.backend, after));
            Accounted(p') && EpochsApart(p') && IgnoredWereOutrun(p')
  {
    var start := Start(p.backend.starter.key, p.backend.starter.epoch);
    var p' := p.(backend := DoCommitStart(p.backend, after));
    CommitAccounts(p, p', start);
    CommitOutruns(p, p', start);
  }

  lemma CommitMoves(p: Protocol, after: Fence)
    requires CanMove(p, Work(CommitStart(after)))
    ensures InCommitting(p.backend) && CanCommitStart(p.backend, after)
    ensures Moved(p, Work(CommitStart(after))) == p.(backend := DoCommitStart(p.backend, after))
  {
  }

  lemma CommitKeepsProtocol(p: Protocol, after: Fence)
    requires ProtocolInv(p) && CanMove(p, Work(CommitStart(after)))
    ensures ProtocolInv(Moved(p, Work(CommitStart(after))))
  {
    CommitMoves(p, after);
    CommitKeepsBackend(p.backend, after);
    CommitKeepsStarts(p, after);
  }

  lemma CommitFillsFence(s: State, after: Fence, start: Start)
    requires Inv(s) && CanCommitStart(s, after) && start == Start(s.starter.key, s.starter.epoch)
    requires FullAboveFloor(s.fence, s.honoured)
    ensures FullAboveFloor(DoCommitStart(s, after).fence, DoCommitStart(s, after).honoured)
  {
    CommitKeepsFull(s.fence, s.honoured, start, after);
  }

  lemma FailureKeepsProtocol(p: Protocol)
    requires ProtocolInv(p) && CanMove(p, Work(SpawnWorkerFails))
    ensures ProtocolInv(Moved(p, Work(SpawnWorkerFails)))
  {
    var s, p' := p.backend, Moved(p, Work(SpawnWorkerFails));
    var start := Start(s.starter.key, s.starter.epoch);
    StepKeepsInv(s, SpawnWorkerFails);
    assert At(p, start, BeingServed);
    StartGoes(p, p', start, BeingServed, Unspawned);
  }

  lemma RestKeepsProtocol(p: Protocol, step: Step)
    requires ProtocolInv(p) && CanMove(p, Work(step)) && !step.CommitStart? && !step.SpawnWorkerFails?
    ensures ProtocolInv(Moved(p, Work(step)))
  {
    StepKeepsInv(p.backend, step);
    OthersMoveNoStart(p.backend, step);
    NobodyMoves(p, Moved(p, Work(step)));
  }

  lemma WorkKeepsInv(p: Protocol, step: Step)
    requires ProtocolInv(p) && CanMove(p, Work(step))
    ensures ProtocolInv(Moved(p, Work(step)))
  {
    if step.CommitStart? {
      CommitKeepsProtocol(p, step.after);
    } else if step.SpawnWorkerFails? {
      FailureKeepsProtocol(p);
    } else {
      RestKeepsProtocol(p, step);
    }
  }

  lemma NobodyMoves(p: Protocol, p': Protocol)
    requires Accounted(p) && p'.issued == p.issued && p'.inFlight == p.inFlight && p'.ignored == p.ignored && p'.failed == p.failed
    requires p'.backend.honoured == p.backend.honoured && Underway(p'.backend) == Underway(p.backend)
    ensures Accounted(p')
  {
    assert forall s, i :: At(p', s, i) <==> At(p, s, i);
  }

  lemma {:induction false} RunKeepsProtocol(p: Protocol, run: seq<Move>, p': Protocol)
    requires ProtocolInv(p) && Runs(p, run, p')
    ensures ProtocolInv(p')
    decreases |run|
  {
    if run != [] {
      match run[0] {
        case Issue(start) => IssueKeepsInv(p, start);
        case Deliver(start) => DeliverKeepsInv(p, start);
        case Work(step) => WorkKeepsInv(p, step);
      }
      RunKeepsProtocol(Moved(p, run[0]), run[1..], p');
    }
  }

  lemma FromNothing(run: seq<Move>, p: Protocol)
    requires Runs(NOTHING_YET, run, p)
    ensures ProtocolInv(p)
  {
    NothingYetInv();
    RunKeepsProtocol(NOTHING_YET, run, p);
  }

  // ----- What becomes of a start -----

  ghost predicate NewestIssued(p: Protocol, start: Start) {
    start in p.issued && forall s :: s in p.issued && s.key == start.key ==> s.epoch <= start.epoch
  }

  /** In whatever order starts arrive: one is turned away exactly if, by then, a newer
      one of its own source or newer ones of more than 64 sources have been honoured. */
  lemma ArrivalIsDecidedByHistory(run: seq<Move>, p: Protocol, start: Start)
    requires Runs(NOTHING_YET, run, p) && CanMove(p, Deliver(start))
    ensures start in Moved(p, Deliver(start)).ignored <==> Outrun(p.backend.honoured, start)
  {
    FromNothing(run, p);
    ArrivalIff(p, start);
    assert At(p, start, OnItsWay);
    assert !At(p, start, TurnedAway);
  }

  /** Every start is in exactly one place; and the newest one of a source, once it has
      arrived and the start lock is free, is honoured, and then what is registered for
      the source runs exactly it, or its worker could not be spawned, or newer ones of
      more than 64 other sources went first. */
  lemma NewestStartRunsUnlessOutrun(run: seq<Move>, p: Protocol, start: Start)
    requires Runs(NOTHING_YET, run, p) && p.backend.starter.Idle? && NewestIssued(p, start) && start !in p.inFlight
    ensures exists place :: At(p, start, place) && forall other :: At(p, start, other) ==> other == place
    ensures if Honoured(p.backend, start) then
              start.key in p.backend.supervisors ==>
                && p.backend.supervisors[start.key].epoch == start.epoch
                && p.backend.supervisors[start.key].worker in p.backend.workers
                && p.backend.workers[p.backend.supervisors[start.key].worker].epoch == start.epoch
            else
              start in p.failed
              || (start in p.ignored && |NewerKeys(p.backend.honoured, start.epoch)| > FENCE_CAP
                  && start.key !in NewerKeys(p.backend.honoured, start.epoch))
  {
    FromNothing(run, p);
    var i :| At(p, start, i);
    forall s | Honoured(p.backend, s)
      ensures s in p.issued
    {
      assert At(p, s, InHistory);
    }
    if Honoured(p.backend, start) && start.key in p.backend.supervisors {
      assert SupervisorOk(p.backend, start.key);
    }
  }

  lemma AdmittedIsAt(p: Protocol, start: Start)
    requires start in Admitted(p.backend)
    ensures At(p, start, BeingServed) || At(p, start, InHistory)
  {
  }

  lemma IgnoredHasNoWorker(p: Protocol, start: Start)
    requires ProtocolInv(p) && start in p.ignored
    ensures forall w :: w in p.backend.workers ==> Start(p.backend.workers[w].key, p.backend.workers[w].epoch) != start
  {
    assert At(p, start, TurnedAway);
    if start in Admitted(p.backend) {
      AdmittedIsAt(p, start);
      assert false;
    }
  }

  /** Every envelope was sent by some worker, under its own key and epoch. */
  predicate SentByWorkers(s: State, queue: seq<LiveFrames.Envelope>) {
    forall i :: 0 <= i < |queue| ==>
      exists w :: w in s.workers && s.workers[w].key == queue[i].key && s.workers[w].epoch == queue[i].epoch
  }

  lemma {:induction false} NothingIsMine(queue: seq<LiveFrames.Envelope>, key: SourceKey, epoch: Epoch)
    requires forall i :: 0 <= i < |queue| ==> queue[i].key != key || queue[i].epoch != epoch
    ensures LiveFrames.Mine(queue, key, epoch) == []
    decreases |queue|
  {
    if queue != [] {
      NothingIsMine(queue[1..], key, epoch);
    }
  }

  /** A start turned away is never run later, so its caller, told that all is well,
      drains a queue in which nothing is ever addressed to it, and stays connecting. */
  lemma IgnoredStartDrainsForever(run: seq<Move>, p: Protocol, more: seq<Move>, p': Protocol, start: Start,
                                  queue: seq<LiveFrames.Envelope>, before: LiveFrames.LiveState,
                                  patterns: LiveFrames.Patterns, result: LiveFrames.Consumed)
    requires Runs(NOTHING_YET, run, p) && start in p.ignored && Runs(p, more, p')
    requires SentByWorkers(p'.backend, queue) && LiveFrames.Drains(queue, start.epoch, start.key, before, patterns, result)
    ensures !result.Finished? && result.state == before && !result.online
  {
    FromNothing(run, p);
    RunKeepsProtocol(p, more, p');
    IgnoredStays(p, more, p', start);
    IgnoredHasNoWorker(p', start);
    forall i | 0 <= i < |queue|
      ensures queue[i].key != start.key || queue[i].epoch != start.epoch
    {
      var w :| w in p'.backend.workers && p'.backend.workers[w].key == queue[i].key && p'.backend.workers[w].epoch == queue[i].epoch;
      assert Start(p'.backend.workers[w].key, p'.backend.workers[w].epoch) != start;
    }
    NothingIsMine(queue, start.key, start.epoch);
  }

  lemma {:induction false} IgnoredStays(p: Protocol, run: seq<Move>, p': Protocol, start: Start)
    requires Runs(p, run, p') && start in p.ignored
    ensures start in p'.ignored
    decreases |run|
  {
    if run != [] {
      IgnoredStays(Moved(p, run[0]), run[1..], p', start);
    }
  }

  // ----- A start that is outrun -----

  /** Names of different lengths, for as many sources as needed. */
  function Name(n: nat): SourceKey {
    if n == 0 then "" else Name(n - 1) + "k"
  }

  lemma {:induction false} NameLength(n: nat)
    ensures |Name(n)| == n
  {
    if n > 0 {
      NameLength(n - 1);
    }
  }

  const SLOW := Start("", 1)

  ghost predicate Reached(p: Protocol) {
    exists run :: Runs(NOTHING_YET, run, p)
  }

  lemma {:induction false} RunsFurther(p: Protocol, run: seq<Move>, p': Protocol, move: Move)
    requires Runs(p, run, p') && CanMove(p', move)
    ensures Runs(p, run + [move], Moved(p', move))
    decreases |run|
  {
    if run == [] {
      assert [] + [move] == [move] && [move][1..] == [];
    } else {
      RunsFurther(Moved(p, run[0]), run[1..], p', move);
      assert (run + [move])[1..] == run[1..] + [move];
    }
  }

  lemma ReachesMove(p: Protocol, move: Move)
    requires Reached(p) && CanMove(p, move)
    ensures Reached(Moved(p, move)) && ProtocolInv(p) && ProtocolInv(Moved(p, move))
  {
    var run :| Runs(NOTHING_YET, run, p);
    RunsFurther(NOTHING_YET, run, p, move);
    FromNothing(run, p);
    FromNothing(run + [move], Moved(p, move));
  }

  /** The slow start is still on its way, and n sources have been started since. */
  ghost predicate Ahead(p: Protocol, n: nat) {
    && Reached(p) && p.backend.starter.Idle? && p.inFlight == {SLOW} && p.ignored == {}
    && (forall s :: s in p.issued ==> s.epoch <= n + 1)
    && (forall s :: s in p.issued && s.key == SLOW.key ==> s == SLOW)
    && (forall key :: key in p.backend.supervisors ==> |key| <= n)
    && (forall w :: w in p.backend.workers ==> w < n)
    && (forall i :: 1 <= i <= n ==> Name(i) in NewerKeys(p.backend.honoured, SLOW.epoch))
  }

  lemma SlowIsIssued() returns (p: Protocol)
    ensures Ahead(p, 0)
  {
    assert Runs(NOTHING_YET, [], NOTHING_YET);
    ReachesMove(NOTHING_YET, Issue(SLOW));
    p := Moved(NOTHING_YET, Issue(SLOW));
  }

  lemma NewestIsNotOutrun(history: seq<Start>, start: Start)
    requires forall s :: s in history ==> s.epoch <= start.epoch
    ensures !Outrun(history, start)
  {
    assert NewerKeys(history, start.epoch) == {};
  }

  lemma NextIsIssued(p: Protocol, n: nat) returns (p': Protocol)
    requires Ahead(p, n)
    ensures Reached(p') && ProtocolInv(p') && !Outrun(p'.backend.honoured, Start(Name(n + 1), n + 2))
    ensures var start := Start(Name(n + 1), n + 2);
            p' == p.(issued := p.issued + {start}, inFlight := p.inFlight + {start})
  {
    var start := Start(Name(n + 1), n + 2);
    ReachesMove(p, Issue(start));
    p' := Moved(p, Issue(start));
    HonouredAreIssued(p);
    NewestIsNotOutrun(p'.backend.honoured, start);
  }

  /** The next source's start is issued and arrives at once. */
  lemma NextArrives(p: Protocol, n: nat) returns (p': Protocol)
    requires Ahead(p, n)
    ensures var start := Start(Name(n + 1), n + 2);
            && Reached(p') && p' == p.(issued := p.issued + {start},
                                       backend := p.backend.(starter := Starting(start.key, start.epoch, Removing)))
  {
    var start := Start(Name(n + 1), n + 2);
    NameLength(n + 1);
    var issued := NextIsIssued(p, n);
    ArrivalIff(issued, start);
    ReachesMove(issued, Deliver(start));
    p' := Moved(issued, Deliver(start));
    assert p'.inFlight == p.inFlight;
  }

  lemma HonouredAreIssued(p: Protocol)
    requires ProtocolInv(p)
    ensures forall s :: s in p.backend.honoured ==> s in p.issued
  {
    forall s | s in p.backend.honoured
      ensures s in p.issued
    {
      assert At(p, s, InHistory);
    }
  }

  lemma ReachesWork(p: Protocol, step: Step, s: State)
    requires Reached(p) && !step.BeginStart? && !step.SpawnWorkerFails?
    requires Enabled(p.backend, step) && Apply(p.backend, step) == s
    ensures Reached(p.(backend := s))
  {
    ReachesMove(p, Work(step));
  }

  lemma NextIsSpawned(p: Protocol, start: Start, w: WorkerId) returns (p': Protocol)
    requires Reached(p) && p.backend.starter == Starting(start.key, start.epoch, Removing)
    requires start.key !in p.backend.supervisors && w !in p.backend.workers
    ensures Reached(p') && p' == p.(backend := p.backend.(
              workers := p.backend.workers[w := LiveWorker(start.key, start.epoch, NEW_WORKER)],
              starter := Starting(start.key, start.epoch, Inserting(w))))
  {
    var s1 := p.backend.(starter := Starting(start.key, start.epoch, Installing));
    ReachesWork(p, RemoveForStart, s1);
    var s2 := s1.(workers := s1.workers[w := LiveWorker(start.key, start.epoch, NEW_WORKER)],
    starter := Starting(start.key, start.epoch, Inserting(w)));
    ReachesWork(p.(backend := s1), SpawnWorker(w), s2);
    p' := p.(backend := s2);
  }

  /** It is given a worker and installed. */
  lemma NextIsInstalled(p: Protocol, start: Start, w: WorkerId) returns (p': Protocol)
    requires Reached(p) && p.backend.starter == Starting(start.key, start.epoch, Removing)
    requires start.key !in p.backend.supervisors && w !in p.backend.workers
    ensures Reached(p') && p' == p.(backend := p.backend.(
              workers := p.backend.workers[w := LiveWorker(start.key, start.epoch, NEW_WORKER)],
              supervisors := p.backend.supervisors[start.key := Supervisor(start.epoch, w)],
              starter := Starting(start.key, start.epoch, Committing(w))))
  {
    var p2 := NextIsSpawned(p, start, w);
    var s3 := p2.backend.(supervisors := p2.backend.supervisors[start.key := Supervisor(start.epoch, w)],
    starter := Starting(start.key, start.epoch, Committing(w)));
    ReachesWork(p2, InsertWorker, s3);
    p' := p2.(backend := s3);
  }

  lemma CommitIsPossible(fence: Fence, start: Start)
    ensures exists after :: Commits(fence, start, after)
  {
    var entries := fence.lastStarted[start.key := start.epoch];
    if |entries| <= FENCE_CAP {
      assert Commits(fence, start, Fence(entries, fence.floor));
    } else {
      LowestExists(entries);
      var victim :| IsLowest(entries, victim);
      assert Commits(fence, start, Evict(entries, fence.floor, victim));
    }
  }

  lemma NextIsCommitted(p: Protocol, start: Start, w: WorkerId) returns (p': Protocol)
    requires Reached(p) && p.backend.starter == Starting(start.key, start.epoch, Committing(w))
    ensures Reached(p') && p'.issued == p.issued && p'.inFlight == p.inFlight && p'.ignored == p.ignored
    ensures p'.backend.starter.Idle? && p'.backend.honoured == p.backend.honoured + [start]
    ensures p'.backend.workers == p.backend.workers && p'.backend.supervisors == p.backend.supervisors
  {
    CommitIsPossible(p.backend.fence, start);
    var after :| Commits(p.backend.fence, start, after);
    ReachesMove(p, Work(CommitStart(after)));
    p' := Moved(p, Work(CommitStart(after)));
  }

  lemma OneMoreAhead(p: Protocol, n: nat) returns (p': Protocol)
    requires Ahead(p, n)
    ensures Ahead(p', n + 1)
  {
    var start := Start(Name(n + 1), n + 2);
    NameLength(n + 1);
    var p1 := NextArrives(p, n);
    var p2 := NextIsInstalled(p1, start, n);
    p' := NextIsCommitted(p2, start, n);
    assert start in p'.backend.honoured;
    forall i | 1 <= i <= n + 1
      ensures Name(i) in NewerKeys(p'.backend.honoured, SLOW.epoch)
    {
      if i <= n {
        assert Name(i) in NewerKeys(p.backend.honoured, SLOW.epoch);
      }
    }
  }

  lemma {:induction false} ManyAhead(n: nat) returns (p: Protocol)
    ensures Ahead(p, n)
  {
    if n == 0 {
      p := SlowIsIssued();
    } else {
      var before := ManyAhead(n - 1);
      p := OneMoreAhead(before, n - 1);
    }
  }

  lemma {:induction false} NamesCount(n: nat, keys: set<SourceKey>) returns (names: set<SourceKey>)
    requires forall i :: 1 <= i <= n ==> Name(i) in keys
    ensures names <= keys && |names| == n && forall name :: name in names ==> |name| <= n
  {
    names := {};
    if n > 0 {
      var before := NamesCount(n - 1, keys);
      NameLength(n);
      names := before + {Name(n)};
    }
  }

  /** It does happen: the only start of its source is turned away and never runs, because
      sixty-five other sources were started while it was on its way. */
  lemma OnlyStartIsTurnedAway()
    ensures exists run, p :: Runs(NOTHING_YET, run, p) && NewestIssued(p, SLOW) && SLOW in p.ignored
  {
    var n := FENCE_CAP + 1;
    var p := ManyAhead(n);
    var names := NamesCount(n, NewerKeys(p.backend.honoured, SLOW.epoch));
    SubsetSize(names, NewerKeys(p.backend.honoured, SLOW.epoch));
    assert CanMove(p, Deliver(SLOW));
    ReachesMove(p, Deliver(SLOW));
    ArrivalIff(p, SLOW);
    assert At(p, SLOW, OnItsWay);
    var p' := Moved(p, Deliver(SLOW));
    var run :| Runs(NOTHING_YET, run, p');
    assert NewestIssued(p', SLOW) && SLOW in p'.ignored;
  }
}
