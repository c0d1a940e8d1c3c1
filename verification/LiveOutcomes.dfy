/**
 What a source shows after each turn of its supervisor
 (desktop/src/effect/LiveConnection.ts:292-492), and that the turns of its drain are the
 drain's loop.
 */
module LiveOutcomes {
  import opened Options
  import opened SubscribeWorker
  import opened LiveFrames
  import opened LiveContents
  import opened LiveService
  import opened LiveServiceSafety
  import opened LiveEpochs

  // ----- The drain, turn by turn -----

  /** Every envelope of the queue, one turn each, until the drain is over. */
  function TakeAll(s: System, id: SupId, queue: seq<Envelope>, patterns: Patterns): System
    decreases |queue|
  {
    if queue == [] || !CanTakeFrame(s, id) then s
    else TakeAll(DoTakeFrame(s, id, queue[0].key, queue[0].epoch, queue[0].event, patterns), id, queue[1..], patterns)
  }

  /** The supervisor drains for this source and epoch, having seen rows or not. */
  predicate DrainsFor(s: System, id: SupId, key: Key, epoch: nat, first: bool, online: bool) {
    Alive(s, id) && s.sups[id].key == key && s.sups[id].run == Consuming(first, epoch, online)
  }

  lemma FirstTerminalLater(events: seq<Event>)
    requires events != [] && !IsTerminal(events[0])
    ensures FirstTerminal(events) == 1 + FirstTerminal(events[1..])
    ensures var n := FirstTerminal(events); events[..n] == [events[0]] + events[1..][..n - 1]
  {
  }

  lemma RowsBefore(event: Event, events: seq<Event>)
    ensures HasRows([event] + events) <==> event.Rows? || HasRows(events)
  {
    if HasRows(events) {
      var i :| 0 <= i < |events| && events[i].Rows?;
      assert ([event] + events)[i + 1].Rows?;
    }
    if event.Rows? {
      assert ([event] + events)[0].Rows?;
    }
  }

  /** One turn for an event that does not end the run. */
  lemma OneTurn(s: System, id: SupId, key: Key, epoch: nat, first: bool, online: bool, event: Event, patterns: Patterns)
    requires DrainsFor(s, id, key, epoch, first, online) && !IsTerminal(event)
    ensures var s' := DoTakeFrame(s, id, key, epoch, event, patterns);
            && DrainsFor(s', id, key, epoch, first, online || event.Rows?)
            && StateFor(s', key) == FoldOne(event, StateFor(s, key), key, patterns)
  {
  }

  lemma LastTurn(s: System, id: SupId, key: Key, epoch: nat, first: bool, online: bool, event: Event, patterns: Patterns)
    requires DrainsFor(s, id, key, epoch, first, online) && IsTerminal(event)
    ensures FoldEvent(event, patterns).terminal.Some?
    ensures var s' := DoTakeFrame(s, id, key, epoch, event, patterns);
            && Alive(s', id) && s'.sups[id].run == Settling(first, epoch, online, FoldEvent(event, patterns).terminal.value)
            && StateFor(s', key) == StateFor(s, key)
  {
  }

  /** The turns take the run where the fold over its own events takes it, whatever else
      is queued. */
  lemma {:induction false} TurnsAreTheFold(s: System, id: SupId, key: Key, epoch: nat, first: bool, online: bool,
                                           queue: seq<Envelope>, patterns: Patterns)
    requires DrainsFor(s, id, key, epoch, first, online)
    ensures var events := Mine(queue, key, epoch);
            var n := FirstTerminal(events);
            var s' := TakeAll(s, id, queue, patterns);
            && Alive(s', id)
            && StateFor(s', key) == FoldAll(events[..n], StateFor(s, key), key, patterns)
            && (n == |events| ==> s'.sups[id].run == Consuming(first, epoch, online || HasRows(events[..n])))
            && (n < |events| ==>
                  FoldEvent(events[n], patterns).terminal.Some?
                  && s'.sups[id].run == Settling(first, epoch, online || HasRows(events[..n]),
                                                 FoldEvent(events[n], patterns).terminal.value))
    decreases |queue|
  {
    var events := Mine(queue, key, epoch);
    if queue != [] {
      var next := DoTakeFrame(s, id, queue[0].key, queue[0].epoch, queue[0].event, patterns);
      if queue[0].key != key || queue[0].epoch != epoch {
        assert next == s;
        TurnsAreTheFold(s, id, key, epoch, first, online, queue[1..], patterns);
      } else if IsTerminal(queue[0].event) {
        LastTurn(s, id, key, epoch, first, online, queue[0].event, patterns);
        assert FirstTerminal(events) == 0 && events[..0] == [];
      } else {
        var event := queue[0].event;
        OneTurn(s, id, key, epoch, first, online, event, patterns);
        TurnsAreTheFold(next, id, key, epoch, first, online || event.Rows?, queue[1..], patterns);
        FirstTerminalLater(events);
        assert events[0] == event && events[1..] == Mine(queue[1..], key, epoch);
        RowsBefore(event, events[1..][..FirstTerminal(events) - 1]);
      }
    }
  }

  /** So a source shows the last rows and the last status of its present run. */
  lemma DrainingShowsTheLast(s: System, id: SupId, key: Key, epoch: nat, first: bool, queue: seq<Envelope>, patterns: Patterns)
    requires DrainsFor(s, id, key, epoch, first, false)
    ensures var events := Mine(queue, key, epoch);
            var taken := events[..FirstTerminal(events)];
            var s' := TakeAll(s, id, queue, patterns);
            && Shows(taken, key, StateFor(s, key), StateFor(s', key)) && Alive(s', id)
            && (s'.sups[id].run.Consuming? || s'.sups[id].run.Settling?)
            && (s'.sups[id].run.online <==> RowsSent(taken) != [])
            && (s'.sups[id].run.Settling? <==> |taken| < |events|)
            && (s'.sups[id].run.Settling? ==> EndsAs(events[|taken|], patterns, s'.sups[id].run.terminal))
  {
    var events := Mine(queue, key, epoch);
    var n := FirstTerminal(events);
    TurnsAreTheFold(s, id, key, epoch, first, false, queue, patterns);
    FoldShowsTheLast(events[..n], StateFor(s, key), key, patterns);
    RowsAreSent(events[..n]);
  }

  // ----- How a run ends -----

  /** An end is fatal if it says so, or if no daemon was found for an explicit start on
      its first attempt before any rows came. */
  predicate IsFatalEnd(sup: Sup)
    requires sup.run.Settling?
  {
    || sup.run.terminal.FatalEnd?
    || (sup.run.terminal.NoDaemon? && sup.run.first && sup.running.autoStart && !sup.run.online)
  }

  /** A fatal end parks the source; any other is followed by a further, never first,
      attempt. Rows go exactly with a fatal end or a missing daemon, and the message is
      the end's own. */
  lemma SettlingShows(s: System, id: SupId)
    requires CanSettle(s, id)
    ensures var (sup, s') := (s.sups[id], DoSettle(s, id));
            var (before, after, message) := (StateFor(s, sup.key), StateFor(s', sup.key), sup.run.terminal.message);
            && (if IsFatalEnd(sup) then after == LiveState(StFatal(message), [], None) && s'.sups[id].run == Parked
                else if sup.run.terminal.NoDaemon? then after == LiveState(StNoDaemon(message), [], None) && s'.sups[id].run == BackingOff
                else after == before.(connection := StReconnecting(message)) && s'.sups[id].run == BackingOff)
            && (forall key :: key != sup.key ==> StateFor(s', key) == StateFor(s, key))
  {
  }

  /** What the other turns of a supervisor show, and where they lead. */
  lemma OtherTurnsShow(s: System, id: SupId, skipped: nat, persists: bool, failure: Option<string>, message: string)
    ensures CanPick(s, id, skipped) ==>
              var (sup, s', target) := (s.sups[id], DoPick(s, id, skipped), s.sups[id].queue[skipped]);
              s'.sups[id].running == target
              && if target.enabled && target.hasSettings then s'.states == s.states && s'.sups[id].run == Arming(true)
                 else StateFor(s', sup.key) == LiveState(StConnecting("Waiting for a source"), [], None) && s'.sups[id].run == Parked
    ensures CanAttempt(s, id) ==>
              var (sup, s') := (s.sups[id], DoAttempt(s, id, persists));
              StateFor(s', sup.key) == StateFor(s, sup.key).(connection :=
                if sup.run.first then StConnecting("Connecting to agentscan") else StReconnecting("Reconnecting to agentscan"))
              && s'.sups[id].run == Starting(sup.run.first, s'.epoch)
    ensures CanStartReturn(s, id) ==>
              var (sup, s') := (s.sups[id], DoStartReturn(s, id, failure));
              s'.states == s.states
              && if failure.Some? then s'.sups[id].run == Settling(sup.run.first, sup.run.epoch, false, FatalEnd(failure.value))
                 else s'.sups[id].run == Consuming(sup.run.first, sup.run.epoch, false)
    ensures Alive(s, id) ==>
              StateFor(DoParkFatal(s, id, message), s.sups[id].key) == LiveState(StFatal(message), [], None)
              && DoParkFatal(s, id, message).sups[id].run == Parked
    ensures CanRearm(s, id) ==> DoRearm(s, id).states == s.states && DoRearm(s, id).sups[id].run == Arming(false)
  {
  }

  /** The supervisor's latest attempt. */
  ghost predicate LatestOf(attempts: seq<Attempt>, id: SupId, a: Attempt) {
    a.sup == id && exists i :: 0 <= i < |attempts| && attempts[i] == a && forall j :: i < j < |attempts| ==> attempts[j].sup != id
  }

  /** The attempt a supervisor is in. */
  function OwnAttempt(sup: Sup, id: SupId): Attempt
    requires HasEpoch(sup.run)
  {
    Attempt(sup.key, id, sup.running.gen, sup.run.first && sup.running.autoStart)
  }

  ghost predicate IsLogged(s: System, id: SupId)
    requires id in s.sups
  {
    HasEpoch(s.sups[id].run) ==> LatestOf(s.attempts, id, OwnAttempt(s.sups[id], id))
  }

  ghost predicate LoggedInv(s: System) {
    forall id :: Alive(s, id) ==> IsLogged(s, id)
  }

  /** Nothing the log speaks of has changed for this supervisor. */
  predicate SameAttempt(s: System, s': System, id: SupId) {
    && Alive(s, id) && id in s'.sups && HasEpoch(s.sups[id].run) && HasEpoch(s'.sups[id].run)
    && OwnAttempt(s'.sups[id], id) == OwnAttempt(s.sups[id], id)
    && (s'.attempts == s.attempts
        || (|s'.attempts| == |s.attempts| + 1 && s'.attempts[..|s.attempts|] == s.attempts && s'.attempts[|s.attempts|].sup != id))
  }

  predicate OfSupervisor(step: Step) {
    step.Pick? || step.StartReturn? || step.TakeFrame? || step.Settle? || step.Rearm? || step.ParkFatal?
  }

  lemma OwnTurnsKeepAttempt(s: System, step: Step, id: SupId)
    requires Enabled(s, step) && OfSupervisor(step) && Alive(Apply(s, step), id) && HasEpoch(Apply(s, step).sups[id].run)
    ensures SameAttempt(s, Apply(s, step), id)
  {
  }

  lemma TargetMoveKeepsAttempt(s: System, s': System, owner: SupId, sup: Sup, id: SupId)
    requires owner in s.sups && s'.sups == s.sups[owner := sup] && s'.attempts == s.attempts
    requires sup.key == s.sups[owner].key && sup.running == s.sups[owner].running
             && sup.run == s.sups[owner].run && sup.dying == s.sups[owner].dying
    requires Alive(s', id) && HasEpoch(s'.sups[id].run)
    ensures SameAttempt(s, s', id)
  {
  }

  lemma NewTargetKeepsAttempt(s: System, step: Step, id: SupId)
    requires Enabled(s, step) && (step.SetEnabled? || step.Retarget?)
    requires Alive(Apply(s, step), id) && HasEpoch(Apply(s, step).sups[id].run)
    ensures SameAttempt(s, Apply(s, step), id)
  {
    var owner := s.entries[step.key];
    var s' := Apply(s, step);
    if s' != s {
      TargetMoveKeepsAttempt(s, s', owner, s'.sups[owner], id);
    }
  }

  lemma OthersKeepAttempt(s: System, step: Step, id: SupId)
    requires Enabled(s, step) && !OfSupervisor(step) && !(step.Try? && step.sup == id)
    requires Alive(Apply(s, step), id) && HasEpoch(Apply(s, step).sups[id].run)
    ensures SameAttempt(s, Apply(s, step), id)
  {
    if step.SetEnabled? || step.Retarget? {
      NewTargetKeepsAttempt(s, step, id);
    }
  }

  lemma TryIsLogged(s: System, id: SupId, persists: bool)
    requires CanAttempt(s, id)
    ensures IsLogged(DoAttempt(s, id, persists), id)
  {
    var s' := DoAttempt(s, id, persists);
    assert s'.attempts[|s.attempts|] == OwnAttempt(s'.sups[id], id);
  }

  lemma LatestStays(attempts: seq<Attempt>, more: seq<Attempt>, id: SupId, a: Attempt)
    requires LatestOf(attempts, id, a) && |more| == |attempts| + 1 && more[..|attempts|] == attempts && more[|attempts|].sup != id
    ensures LatestOf(more, id, a)
  {
    var i :| 0 <= i < |attempts| && attempts[i] == a && forall j :: i < j < |attempts| ==> attempts[j].sup != id;
    assert forall j :: 0 <= j < |attempts| ==> more[j] == more[..|attempts|][j];
    assert more[i] == a;
  }

  lemma SameIsLogged(s: System, s': System, id: SupId)
    requires id in s.sups && IsLogged(s, id) && SameAttempt(s, s', id)
    ensures IsLogged(s', id)
  {
    if s'.attempts != s.attempts {
      LatestStays(s.attempts, s'.attempts, id, OwnAttempt(s.sups[id], id));
    }
  }

  lemma StepKeepsLogged(s: System, step: Step, id: SupId)
    requires LoggedInv(s) && Enabled(s, step) && Alive(Apply(s, step), id)
    ensures IsLogged(Apply(s, step), id)
  {
    if HasEpoch(Apply(s, step).sups[id].run) {
      if step.Try? && step.sup == id {
        TryIsLogged(s, id, step.persists);
      } else {
        if OfSupervisor(step) {
          OwnTurnsKeepAttempt(s, step, id);
        } else {
          OthersKeepAttempt(s, step, id);
        }
        SameIsLogged(s, Apply(s, step), id);
      }
    }
  }

  lemma {:induction false} RunKeepsLogged(s: System, run: seq<Step>, s': System)
    requires LoggedInv(s) && Leads(s, run, s')
    ensures LoggedInv(s')
    decreases |run|
  {
    if run != [] {
      forall id | Alive(Apply(s, run[0]), id)
        ensures IsLogged(Apply(s, run[0]), id)
      {
        StepKeepsLogged(s, run[0], id);
      }
      RunKeepsLogged(Apply(s, run[0]), run[1..], s');
    }
  }

  /** Over every run: an end that only says that no daemon was found is fatal exactly if
      the supervisor's latest attempt was an auto-starting one, and brought no rows. */
  lemma RefusalIsOfOurOwnStart(now: int, stored: Option<int>, run: seq<Step>, s: System, id: SupId)
    requires Leads(FirstPage(now, stored), run, s) && CanSettle(s, id) && s.sups[id].run.terminal.NoDaemon?
    ensures exists a :: LatestOf(s.attempts, id, a)
                        && (StateFor(DoSettle(s, id), s.sups[id].key).connection.StFatal? <==> a.autoStart && !s.sups[id].run.online)
  {
    RunKeepsLogged(FirstPage(now, stored), run, s);
    assert IsLogged(s, id);
    SettlingShows(s, id);
  }
}
