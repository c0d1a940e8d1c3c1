/**
 How the frontend folds one subscription's frames into a source's state
 (desktop/src/effect/LiveConnection.ts: foldEvent, consumeUntilTerminal), and
 how that meets the worker that emits them.
 */
module LiveFrames {
  import opened Options
  import opened SubscribeWorker

  type Key = string

  datatype Connection =
    | StConnecting(message: string)
    | StReconnecting(message: string)
    | StOnline(rowCount: nat)
    | StNoDaemon(message: string)
    | StFatal(message: string)

  datatype LiveState = LiveState(connection: Connection, rows: seq<Row>, rowsRunnerKey: Option<Key>)

  const INITIAL_STATE := LiveState(StConnecting("Starting live client"), [], None)

  datatype Terminal =
    | Recoverable(message: string)
    | NoDaemon(message: string)
    | Mismatch(message: string)
    | FatalEnd(message: string)

  // The two message patterns; what they match is left open.
  datatype Patterns = Patterns(noDaemon: string -> bool, mismatch: string -> bool)

  datatype Update = SetConnection(connection: Connection) | SetRows(rows: seq<Row>)

  datatype Outcome = Outcome(update: Option<Update>, terminal: Option<Terminal>)

  function FoldEvent(event: Event, patterns: Patterns): Outcome {
    match event
    case Connecting(message) => Outcome(Some(SetConnection(StConnecting(message))), None)
    case Rows(rows) => Outcome(Some(SetRows(rows)), None)
    case Offline(message, retrying) =>
      if retrying then
        Outcome(Some(SetConnection(StReconnecting(message))), None)
      else
        Outcome(None, Some(if patterns.noDaemon(message) then NoDaemon(message)
                           else if patterns.mismatch(message) then Mismatch(message)
                           else Recoverable(message)))
    case Shutdown(message) => Outcome(None, Some(Recoverable(message)))
    case Fatal(message) =>
      Outcome(None, Some(if patterns.noDaemon(message) then NoDaemon(message)
                         else if patterns.mismatch(message) then Mismatch(message)
                         else FatalEnd(message)))
  }

  function ApplyUpdate(state: LiveState, update: Update, key: Key): LiveState {
    match update
    case SetConnection(connection) => state.(connection := connection)
    case SetRows(rows) => LiveState(StOnline(|rows|), rows, Some(key))
  }

  /** Non-empty rows carry the key of the source they are stored under. */
  predicate RowsAreOwn(state: LiveState, key: Key) {
    state.rows != [] ==> state.rowsRunnerKey == Some(key)
  }

  datatype Envelope = Envelope(key: Key, epoch: nat, event: Event)

  datatype Consumed =
    | Blocked(online: bool, state: LiveState)
    | Finished(terminal: Terminal, online: bool, state: LiveState, taken: nat)

  function FoldOne(event: Event, state: LiveState, key: Key, patterns: Patterns): LiveState {
    match FoldEvent(event, patterns).update
    case Some(update) => ApplyUpdate(state, update, key)
    case None => state
  }

  /** What folding a whole event sequence does to a state. */
  function FoldAll(events: seq<Event>, state: LiveState, key: Key, patterns: Patterns): LiveState {
    if events == [] then state
    else FoldAll(events[1..], FoldOne(events[0], state, key, patterns), key, patterns)
  }

  /** The events of one subscription in a queue, in order. */
  function Mine(queue: seq<Envelope>, key: Key, epoch: nat): seq<Event> {
    if queue == [] then []
    else if queue[0].key == key && queue[0].epoch == epoch then
      [queue[0].event] + Mine(queue[1..], key, epoch)
    else
      Mine(queue[1..], key, epoch)
  }

  function FirstTerminal(events: seq<Event>): (n: nat)
    ensures n <= |events|
    ensures n < |events| ==> IsTerminal(events[n])
    ensures forall i :: 0 <= i < n ==> !IsTerminal(events[i])
  {
    if events == [] || IsTerminal(events[0]) then 0 else 1 + FirstTerminal(events[1..])
  }

  predicate HasRows(events: seq<Event>) {
    exists i :: 0 <= i < |events| && events[i].Rows?
  }

  // ----- Fold and worker agree on what ends a subscription -----

  lemma FoldEndsExactlyAtTerminals(event: Event, patterns: Patterns)
    ensures FoldEvent(event, patterns).terminal.Some? <==> IsTerminal(event)
    ensures FoldEvent(event, patterns).update.Some? <==> !IsTerminal(event)
  {
  }

  lemma {:induction false} FoldAllAppend(events: seq<Event>, event: Event, state: LiveState, key: Key, patterns: Patterns)
    ensures FoldAll(events + [event], state, key, patterns) ==
            FoldOne(event, FoldAll(events, state, key, patterns), key, patterns)
    decreases |events|
  {
    if events == [] {
      assert [event][1..] == [];
    } else {
      FoldAllAppend(events[1..], event, FoldOne(events[0], state, key, patterns), key, patterns);
      assert (events + [event])[1..] == events[1..] + [event];
    }
  }

  lemma {:induction false} MineAppend(queue: seq<Envelope>, envelope: Envelope, key: Key, epoch: nat)
    ensures Mine(queue + [envelope], key, epoch) ==
            Mine(queue, key, epoch) + if envelope.key == key && envelope.epoch == epoch then [envelope.event] else []
    decreases |queue|
  {
    if queue == [] {
      assert [envelope][1..] == [];
    } else {
      MineAppend(queue[1..], envelope, key, epoch);
      assert (queue + [envelope])[1..] == queue[1..] + [envelope];
    }
  }

  /** `result` is what draining `queue` for one subscription must yield: it ends
      exactly when the queue holds a terminal event of this subscription, having
      taken this subscription's events up to and including that one; the state is
      the fold of the others. Other keys and superseded epochs have no part in it. */
  ghost predicate Drains(queue: seq<Envelope>, epoch: nat, key: Key, before: LiveState, patterns: Patterns, result: Consumed) {
    var events := Mine(queue, key, epoch);
    var n := FirstTerminal(events);
    && (result.Finished? <==> n < |events|)
    && result.state == FoldAll(events[..n], before, key, patterns)
    && (result.online <==> HasRows(events[..n]))
    && (result.Finished? ==>
          && Some(result.terminal) == FoldEvent(events[n], patterns).terminal
          && result.taken <= |queue|
          && Mine(queue[..result.taken], key, epoch) == events[..n + 1])
  }

  method ConsumeUntilTerminal(queue: seq<Envelope>, epoch: nat, key: Key, before: LiveState, patterns: Patterns)
    returns (result: Consumed)
    ensures Drains(queue, epoch, key, before, patterns, result)
  {
    var online, state := false, before;
    ghost var seen: seq<Event> := [];
    var i := 0;
    while i < |queue|
      invariant 0 <= i <= |queue|
      invariant seen == Mine(queue[..i], key, epoch)
      invariant forall event :: event in seen ==> !IsTerminal(event)
      invariant state == FoldAll(seen, before, key, patterns)
      invariant online <==> HasRows(seen)
    {
      var envelope := queue[i];
      assert queue[..i + 1] == queue[..i] + [envelope];
      MineAppend(queue[..i], envelope, key, epoch);
      i := i + 1;
      if envelope.key == key && envelope.epoch == epoch {
        var outcome := FoldEvent(envelope.event, patterns);
        if outcome.terminal.Some? {
          TakenUpTo(queue, i, key, epoch, seen, envelope.event);
          return Finished(outcome.terminal.value, online, state, i);
        }
        FoldAllAppend(seen, envelope.event, before, key, patterns);
        SeenRows(seen, envelope.event);
        if envelope.event.Rows? {
          online := true;
        }
        if outcome.update.Some? {
          state := ApplyUpdate(state, outcome.update.value, key);
        }
        seen := seen + [envelope.event];
      }
    }
    assert queue[..i] == queue;
    assert FirstTerminal(seen) == |seen| && seen[..|seen|] == seen;
    return Blocked(online, state);
  }

  lemma TakenUpTo(queue: seq<Envelope>, i: nat, key: Key, epoch: nat, seen: seq<Event>, event: Event)
    requires i <= |queue| && Mine(queue[..i], key, epoch) == seen + [event]
    requires IsTerminal(event) && forall e :: e in seen ==> !IsTerminal(e)
    ensures var events := Mine(queue, key, epoch);
            FirstTerminal(events) == |seen| < |events| && events[|seen|] == event &&
            events[..|seen|] == seen && events[..|seen| + 1] == seen + [event]
  {
    MineSplit(queue, i, key, epoch);
    FirstTerminalAt(Mine(queue, key, epoch), |seen|);
  }

  lemma SeenRows(seen: seq<Event>, event: Event)
    ensures HasRows(seen + [event]) <==> HasRows(seen) || event.Rows?
  {
    var all := seen + [event];
    if HasRows(seen) {
      var i :| 0 <= i < |seen| && seen[i].Rows?;
      assert all[i].Rows?;
    }
    if event.Rows? {
      assert all[|seen|].Rows?;
    }
  }

  lemma {:induction false} MineSplit(queue: seq<Envelope>, i: nat, key: Key, epoch: nat)
    requires i <= |queue|
    ensures Mine(queue, key, epoch) == Mine(queue[..i], key, epoch) + Mine(queue[i..], key, epoch)
    decreases i
  {
    if i == 0 {
      assert queue[..0] == [] && queue[0..] == queue;
    } else {
      MineSplit(queue[1..], i - 1, key, epoch);
      assert queue[..i][1..] == queue[1..][..i - 1] && queue[1..][i - 1..] == queue[i..];
    }
  }

  lemma FirstTerminalAt(events: seq<Event>, n: nat)
    requires n < |events| && IsTerminal(events[n])
    requires forall j :: 0 <= j < n ==> !IsTerminal(events[j])
    ensures FirstTerminal(events) == n
  {
  }

  /** Whatever else is queued and in whatever order: when the queue holds all
      events of a worker that was never stopped, the drain ends with that worker's
      last event, having taken exactly the worker's events. */
  lemma DrainTakesTheWholeRun(queue: seq<Envelope>, epoch: nat, key: Key, before: LiveState, patterns: Patterns,
                              result: Consumed, launch: Launch, classify: Classifier)
    requires Drains(queue, epoch, key, before, patterns, result)
    requires Mine(queue, key, epoch) == Emitted(launch, None, classify)
    ensures var events := Emitted(launch, None, classify);
            && events != []
            && result.Finished?
            && Some(result.terminal) == FoldEvent(events[|events| - 1], patterns).terminal
            && result.state == FoldAll(events[..|events| - 1], before, key, patterns)
            && result.taken <= |queue|
            && Mine(queue[..result.taken], key, epoch) == events
  {
    WorkerEndsOnce(launch, None, classify);
    var events := Emitted(launch, None, classify);
    FirstTerminalAt(events, |events| - 1);
    assert events[..|events|] == events;
  }

  /** A worker that was stopped before its terminal event leaves the drain waiting:
      the drain finishes exactly if the stop and its kill cut nothing off what the
      worker would have sent. */
  lemma DrainOfStoppedRunWaits(queue: seq<Envelope>, epoch: nat, key: Key, before: LiveState, patterns: Patterns,
                               result: Consumed, killed: Launch, whole: Launch, stop: StopFlag, classify: Classifier)
    requires Drains(queue, epoch, key, before, patterns, result)
    requires LeftByKill(killed, whole, stop)
    requires Mine(queue, key, epoch) == Emitted(killed, stop, classify)
    ensures result.Finished? <==> Emitted(killed, stop, classify) == Emitted(whole, None, classify)
  {
    WorkerEndsOnce(killed, stop, classify);
    WorkerEndsOnce(whole, None, classify);
    StoppingOnlyTruncates(killed, whole, stop, classify);
    var cut, full := Emitted(killed, stop, classify), Emitted(whole, None, classify);
    var n := FirstTerminal(cut);
    if n < |cut| {
      assert full[n] == cut[n];
      assert n == |full| - 1;
      assert cut == full;
    }
  }

  /** Folding never stores rows under a foreign key. */
  lemma {:induction false} FoldKeepsRowsOwn(events: seq<Event>, state: LiveState, key: Key, patterns: Patterns)
    requires RowsAreOwn(state, key)
    ensures RowsAreOwn(FoldAll(events, state, key, patterns), key)
    decreases |events|
  {
    if events != [] {
      FoldKeepsRowsOwn(events[1..], FoldOne(events[0], state, key, patterns), key, patterns);
    }
  }
}
