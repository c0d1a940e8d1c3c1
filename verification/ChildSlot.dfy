/**
 The hand-over of one subscribe child between its worker thread and the one
 operation that may be tearing that worker down
 (desktop/src-tauri/src/subscribe.rs).

 The worker spawns the child, stores it in the shared slot unless the stop flag
 is already set, reads it, reaps it and empties the slot. The stopper sets the
 flag, takes whatever the slot holds, kills it and joins the worker. Every step
 here is one atomic access to the flag, the slot or the child.
 */
module ChildSlot {

  // Exited: terminated on its own but not yet waited for.
  datatype Child = NotSpawned | Running | Exited | Reaped

  // Where the one handle to the child is.
  datatype Handle = Nowhere | WithWorker | InSlot | WithStopper

  datatype Pc =
    | Spawning       // before the subscribe command is spawned
    | Spawned        // holds the child, slot not locked yet
    | SlotLocked     // holds the slot lock, flag not read yet
    | FlagClear      // holds the slot lock, flag was read as clear
    | Aborting       // flag was read as set, lock dropped, child still held
    | Reading        // in the line loop
    | KillingInRead  // took the child out of the slot after a malformed frame
    | Waiting        // about to take the child out of the slot to reap it
    | Polling        // holds the child, polling for its exit
    | Emptying       // the last kill: about to take whatever the slot holds
    | KillingAtEnd
    | CleaningUp     // about to lock the supervisor map
    | Done

  datatype Worker = Worker(pc: Pc, stop: bool, child: Child, handle: Handle, leaked: bool)

  // How far the operation tearing this worker down has come. TookChild: it
  // holds the child and is about to kill it.
  datatype Tear = Unclaimed | Claimed | Flagged | TookChild | Joining

  const NEW_WORKER := Worker(Spawning, false, NotSpawned, Nowhere, false)

  datatype Act =
    | SpawnChild
    | SpawnFails      // also: the command cannot be built
    | LockSlot
    | AbandonChild    // no stdout, or the slot mutex is poisoned
    | ReadFlag
    | StoreChild
    | KillAborted
    | ReadEndsAtEof   // the child is gone, so its stdout is closed
    | ReadEndsOnLine  // a terminal frame, a read error, or the flag seen at a line
    | ReadMalformed
    | KillMalformed
    | TakeForWait
    | PollReaps
    | PollTimesOut    // grace period over: kill, then wait
    | PollErrors      // try_wait failed: the handle is dropped without a kill
    | TakeAtEnd
    | KillAtEnd
    | ChildExits

  predicate CanAct(w: Worker, act: Act) {
    match act
    case SpawnChild => w.pc == Spawning
    case SpawnFails => w.pc == Spawning
    case LockSlot => w.pc == Spawned
    case AbandonChild => w.pc == Spawned
    case ReadFlag => w.pc == SlotLocked
    case StoreChild => w.pc == FlagClear
    case KillAborted => w.pc == Aborting
    case ReadEndsAtEof => w.pc == Reading && w.child != Running
    case ReadEndsOnLine => w.pc == Reading
    case ReadMalformed => w.pc == Reading
    case KillMalformed => w.pc == KillingInRead
    case TakeForWait => w.pc == Waiting
    case PollReaps => w.pc == Polling && w.child == Exited
    case PollTimesOut => w.pc == Polling
    case PollErrors => w.pc == Polling
    case TakeAtEnd => w.pc == Emptying
    case KillAtEnd => w.pc == KillingAtEnd
    case ChildExits => w.child == Running
  }

  function Perform(w: Worker, act: Act): Worker
    requires CanAct(w, act)
  {
    match act
    case SpawnChild => w.(pc := Spawned, child := Running, handle := WithWorker)
    case SpawnFails => w.(pc := Emptying)
    case LockSlot => w.(pc := SlotLocked)
    case AbandonChild => w.(pc := Emptying, child := Reaped, handle := Nowhere)
    case ReadFlag => w.(pc := if w.stop then Aborting else FlagClear)
    case StoreChild => w.(pc := Reading, handle := InSlot)
    case KillAborted => w.(pc := Emptying, child := Reaped, handle := Nowhere)
    case ReadEndsAtEof => w.(pc := Waiting)
    case ReadEndsOnLine => w.(pc := Waiting)
    case ReadMalformed => if w.handle == InSlot then w.(pc := KillingInRead, handle := WithWorker) else w.(pc := Waiting)
    case KillMalformed => w.(pc := Waiting, child := Reaped, handle := Nowhere)
    case TakeForWait => if w.handle == InSlot then w.(pc := Polling, handle := WithWorker) else w.(pc := Emptying)
    case PollReaps => w.(pc := Emptying, child := Reaped, handle := Nowhere)
    case PollTimesOut => w.(pc := Emptying, child := Reaped, handle := Nowhere)
    case PollErrors => w.(pc := Emptying, handle := Nowhere, leaked := true)
    case TakeAtEnd => if w.handle == InSlot then w.(pc := KillingAtEnd, handle := WithWorker) else w.(pc := CleaningUp)
    case KillAtEnd => w.(pc := CleaningUp, child := Reaped, handle := Nowhere)
    case ChildExits => w.(child := Exited)
  }

  /** The stopper's next step short of the join. Taking from the slot needs the
      slot lock, which the worker holds in SlotLocked and FlagClear. */
  predicate CanTear(w: Worker, tear: Tear) {
    match tear
    case Unclaimed => false
    case Claimed => true
    case Flagged => w.pc != SlotLocked && w.pc != FlagClear
    case TookChild => true
    case Joining => false
  }

  function TearStep(w: Worker, tear: Tear): (Worker, Tear)
    requires CanTear(w, tear)
  {
    match tear
    case Claimed => (w.(stop := true), Flagged)
    case Flagged => if w.handle == InSlot then (w.(handle := WithStopper), TookChild) else (w, Joining)
    case TookChild => (w.(child := Reaped, handle := Nowhere), Joining)
  }

  predicate Gone(child: Child) {
    child == NotSpawned || child == Reaped
  }

  /** The inductive invariant of the race. */
  ghost predicate Safe(w: Worker, tear: Tear) {
    && (w.stop <==> tear !in {Unclaimed, Claimed})
    && (w.pc == Spawning ==> w.child == NotSpawned && w.handle == Nowhere && !w.leaked)
    && (w.pc in {Spawned, SlotLocked, FlagClear, Aborting, KillingInRead, Polling, KillingAtEnd} <==>
          w.handle == WithWorker)
    && (w.handle == InSlot ==> w.pc in {Reading, Waiting})
    && (w.handle == WithStopper <==> tear == TookChild)
    && (w.handle != Nowhere ==> w.child in {Running, Exited} && !w.leaked)
    && (w.handle == Nowhere ==> (Gone(w.child) <==> !w.leaked))
    && (w.leaked ==> w.pc in {Emptying, CleaningUp, Done})
    // a stopper past its take never meets the child in the slot again
    && (tear in {TookChild, Joining} ==> w.handle != InSlot && w.pc != FlagClear)
  }

  lemma ActKeepsSafe(w: Worker, tear: Tear, act: Act)
    requires Safe(w, tear) && CanAct(w, act)
    ensures Safe(Perform(w, act), tear)
    ensures Perform(w, act).leaked == (w.leaked || act == PollErrors)
    ensures Perform(w, act).stop == w.stop && (Perform(w, act).pc == Done <==> w.pc == Done)
  {
  }

  lemma TearKeepsSafe(w: Worker, tear: Tear)
    requires Safe(w, tear) && CanTear(w, tear)
    ensures Safe(TearStep(w, tear).0, TearStep(w, tear).1)
    ensures TearStep(w, tear).0.leaked == w.leaked && TearStep(w, tear).0.pc == w.pc
  {
  }

  // ----- Progress -----

  /** How many phases the worker has left; the line loop counts as one. */
  function PhasesLeft(pc: Pc): nat {
    match pc
    case Spawning => 11
    case Spawned => 10
    case SlotLocked => 9
    case FlagClear => 8
    case Aborting => 8
    case Reading => 7
    case KillingInRead => 6
    case Waiting => 5
    case Polling => 4
    case Emptying => 3
    case KillingAtEnd => 2
    case CleaningUp => 1
    case Done => 0
  }

  /** Acts that depend on the child writing another line, or dying by itself. */
  predicate NeedsChild(act: Act) {
    act in {ReadEndsOnLine, ReadMalformed, ChildExits}
  }

  lemma ActsShortenTheWorker(w: Worker, act: Act)
    requires CanAct(w, act) && act != ChildExits
    ensures PhasesLeft(Perform(w, act).pc) < PhasesLeft(w.pc)
  {
  }

  /** Once the stopper has been at the slot, the worker it joins can move on without the
      child's help until it cleans up, which waits for the map lock only: it is never left reading from a child nobody kills. */
  lemma JoinedWorkerMoves(w: Worker)
    requires Safe(w, Joining) && w.pc != Done && w.pc != CleaningUp
    ensures exists act :: CanAct(w, act) && !NeedsChild(act)
  {
    var act :=
      match w.pc
      case Spawning => SpawnChild
      case Spawned => LockSlot
      case SlotLocked => ReadFlag
      case FlagClear => StoreChild
      case Aborting => KillAborted
      case Reading => ReadEndsAtEof
      case KillingInRead => KillMalformed
      case Waiting => TakeForWait
      case Polling => PollTimesOut
      case Emptying => TakeAtEnd
      case KillingAtEnd => KillAtEnd
      case _ => ChildExits;
    assert CanAct(w, act) && !NeedsChild(act);
  }
}
