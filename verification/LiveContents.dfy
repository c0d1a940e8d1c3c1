/**
 What a subscription carries, end to end: which events a worker's lines become
 (desktop/src-tauri/src/subscribe.rs:482-684), and which state the frontend's drain
 leaves of them (desktop/src/effect/LiveConnection.ts:139-197, 265-290).
 */
module LiveContents {
  import opened Options
  import opened SubscribeWorker
  import opened LiveFrames

  // ----- The lines a worker acts on -----

  /** After such a line nothing more is read. */
  predicate EndsStream(line: Line) {
    || line.Malformed? || line.ReadError?
    || (line.Decoded? && (line.frame.ShutdownFrame? || line.frame.FatalFrame?
                          || (line.frame.OfflineFrame? && !line.frame.retrying)))
  }

  /** Lines that change nothing the picker shows. */
  predicate Silent(line: Line) {
    line.Blank? || (line.Decoded? && (line.frame.Keepalive? || line.frame.UnknownFrame?))
  }

  /** The lines before the first that ends the stream. */
  function Reached(lines: seq<Line>): (reached: seq<Line>)
    ensures reached <= lines
    ensures forall line :: line in reached ==> !EndsStream(line)
    ensures |reached| < |lines| ==> EndsStream(lines[|reached|])
  {
    if lines == [] || EndsStream(lines[0]) then [] else [lines[0]] + Reached(lines[1..])
  }

  function Spoken(lines: seq<Line>): seq<Line> {
    if lines == [] then []
    else if Silent(lines[0]) then Spoken(lines[1..])
    else [lines[0]] + Spoken(lines[1..])
  }

  /** The row lists of the valid snapshots, in order. */
  function Snapshots(lines: seq<Line>): seq<seq<Row>> {
    if lines == [] then []
    else if lines[0].Decoded? && lines[0].frame.SnapshotFrame? && lines[0].frame.invalid.None? then
      [lines[0].frame.rows] + Snapshots(lines[1..])
    else Snapshots(lines[1..])
  }

  /** The row lists an event sequence delivers, in order. */
  function RowsSent(events: seq<Event>): seq<seq<Row>> {
    if events == [] then []
    else if events[0].Rows? then [events[0].rows] + RowsSent(events[1..])
    else RowsSent(events[1..])
  }

  /** The event carries what the frame says, under the frame's own message; rows that
      fail validation are reported instead of shown. */
  predicate Tells(line: Line, event: Event, classify: Classifier) {
    line.Decoded?
    && match line.frame
       case ConnectingFrame(message) => event == Connecting(message)
       case SnapshotFrame(rows, invalid) =>
         if invalid.Some? then event == Offline(classify(invalid.value), true) else event == Rows(rows)
       case OfflineFrame(message, retrying) => event == Offline(message, retrying)
       case ShutdownFrame(message) => event == Shutdown(message)
       case FatalFrame(message) => event == Fatal(message)
       case Keepalive => false
       case UnknownFrame => false
  }

  /** Status and stderr, whichever there are, joined by a colon. */
  predicate DescribesExit(exit: Exit, text: string) {
    && (exit.status.Some? && exit.stderr != "" ==> text == exit.status.value + ": " + exit.stderr)
    && (exit.status.Some? && exit.stderr == "" ==> text == exit.status.value)
    && (exit.status.None? && exit.stderr != "" ==> text == exit.stderr)
    && (exit.status.None? && exit.stderr == "" ==> text == "agentscan subscribe exited")
  }

  /** The last event names the line that ended the stream, or how the child exited. */
  ghost predicate TellsTheEnd(lines: seq<Line>, exit: Exit, event: Event, classify: Classifier) {
    var n := |Reached(lines)|;
    if n == |lines| then exists text :: DescribesExit(exit, text) && event == Offline(classify(text), false)
    else
      match lines[n]
      case Malformed(error) => event == Offline(classify("Invalid agentscan subscribe frame: " + error), false)
      case ReadError(error) => event == Offline(classify("Unable to read agentscan subscribe output: " + error), false)
      case _ => Tells(lines[n], event, classify)
  }

  ghost predicate TellsAll(lines: seq<Line>, exit: Exit, events: seq<Event>, classify: Classifier) {
    var spoken := Spoken(Reached(lines));
    && |events| == |spoken| + 1
    && (forall k :: 0 <= k < |spoken| ==> Tells(spoken[k], events[k], classify))
    && TellsTheEnd(lines, exit, events[|spoken|], classify)
  }

  lemma OneMoreLine(lines: seq<Line>, exit: Exit, event: Event, rest: seq<Event>, classify: Classifier)
    requires lines != [] && !EndsStream(lines[0]) && TellsAll(lines[1..], exit, rest, classify)
    ensures Silent(lines[0]) ==> TellsAll(lines, exit, rest, classify)
    ensures Tells(lines[0], event, classify) ==> TellsAll(lines, exit, [event] + rest, classify)
  {
    var spoken, below := Spoken(Reached(lines)), Spoken(Reached(lines[1..]));
    assert Reached(lines)[1..] == Reached(lines[1..]);
    if Tells(lines[0], event, classify) {
      assert spoken == [lines[0]] + below;
      forall k | 0 <= k < |spoken|
        ensures Tells(spoken[k], ([event] + rest)[k], classify)
      {
        if k > 0 {
          assert spoken[k] == below[k - 1] && ([event] + rest)[k] == rest[k - 1];
        }
      }
    }
  }

  lemma {:induction false} StreamTells(lines: seq<Line>, exit: Exit, read: nat, classify: Classifier)
    ensures TellsAll(lines, exit, Streamed(lines, exit, None, read, classify), classify)
    decreases |lines|
  {
    var events := Streamed(lines, exit, None, read, classify);
    if lines == [] {
      assert DescribesExit(exit, ExitMessage(exit));
    } else if !EndsStream(lines[0]) {
      StreamTells(lines[1..], exit, read + 1, classify);
      OneMoreLine(lines, exit, events[0], Streamed(lines[1..], exit, None, read + 1, classify), classify);
    }
  }

  /** What a worker sends that is never stopped: one event for each line that says
      something up to the one that ends the stream, in order and with that line's
      content, and one for the end. */
  lemma WorkerTellsItsLines(lines: seq<Line>, exit: Exit, classify: Classifier)
    ensures TellsAll(lines, exit, Emitted(Streams(lines, exit), None, classify), classify)
  {
    StreamTells(lines, exit, 1, classify);
  }

  /** A launch that fails is reported as what failed, and as nothing else. */
  lemma FailedLaunchIsTold(launch: Launch, stop: StopFlag, classify: Classifier)
    requires !launch.Streams?
    ensures var events := Emitted(launch, stop, classify);
            |events| == 1
            && match launch
               case CommandFails(error) => events[0] == Fatal(classify(error))
               case SpawnFails(error) => events[0] == Offline(classify("Unable to start agentscan subscribe: " + error), false)
               case NoStdout => events[0] == Offline("agentscan subscribe did not expose stdout", false)
               case SlotPoisoned => events[0] == Offline(classify("agentscan subscribe state was poisoned"), false)
               case Streams(_, _) => false
  {
  }

  lemma {:induction false} RowsOfSpoken(spoken: seq<Line>, events: seq<Event>, classify: Classifier)
    requires |events| == |spoken| + 1 && !events[|spoken|].Rows?
    requires forall k :: 0 <= k < |spoken| ==> Tells(spoken[k], events[k], classify)
    ensures RowsSent(events) == Snapshots(spoken)
    decreases |spoken|
  {
    if spoken != [] {
      assert Tells(spoken[0], events[0], classify);
      RowsOfSpoken(spoken[1..], events[1..], classify);
    }
  }

  lemma {:induction false} SilenceHoldsNoSnapshot(lines: seq<Line>)
    ensures Snapshots(Spoken(lines)) == Snapshots(lines)
    decreases |lines|
  {
    if lines != [] {
      SilenceHoldsNoSnapshot(lines[1..]);
    }
  }

  /** The rows a worker sends are exactly those of the valid snapshots before the end of
      its stream: none is lost, invented, changed or sent out of turn. */
  lemma SentRowsAreTheSnapshots(lines: seq<Line>, exit: Exit, classify: Classifier)
    ensures RowsSent(Emitted(Streams(lines, exit), None, classify)) == Snapshots(Reached(lines))
  {
    var events := Emitted(Streams(lines, exit), None, classify);
    WorkerTellsItsLines(lines, exit, classify);
    WorkerEndsOnce(Streams(lines, exit), None, classify);
    RowsOfSpoken(Spoken(Reached(lines)), events, classify);
    SilenceHoldsNoSnapshot(Reached(lines));
  }

  lemma {:induction false} RowsOfAPrefix(some: seq<Event>, more: seq<Event>)
    requires some <= more
    ensures RowsSent(some) <= RowsSent(more)
    decreases |some|
  {
    if some != [] {
      assert some[0] == more[0] && some[1..] <= more[1..];
      RowsOfAPrefix(some[1..], more[1..]);
    }
  }

  /** A stopped worker has sent the first so many of them. */
  lemma StoppedWorkerSendsThemInOrder(killed: Launch, lines: seq<Line>, exit: Exit, stop: StopFlag, classify: Classifier)
    requires LeftByKill(killed, Streams(lines, exit), stop)
    ensures RowsSent(Emitted(killed, stop, classify)) <= Snapshots(Reached(lines))
  {
    StoppingOnlyTruncates(killed, Streams(lines, exit), stop, classify);
    RowsOfAPrefix(Emitted(killed, stop, classify), Emitted(Streams(lines, exit), None, classify));
    SentRowsAreTheSnapshots(lines, exit, classify);
  }

  // ----- When a stop takes effect -----

  /** The lines handled before the read of the stop flag that finds it set, the first
      line being preceded by read number `read`. */
  function Before(lines: seq<Line>, found: nat, read: nat): nat {
    var n := |Reached(lines)|;
    if found <= read then 0 else if found - read < n then found - read else n
  }

  /** The last read that can still cut the end off; a failed read is followed by one
      more. */
  function LastRead(lines: seq<Line>, read: nat): nat {
    var n := |Reached(lines)|;
    read + n + if n < |lines| && lines[n].ReadError? then 1 else 0
  }

  /** What the stream tells when the flag is found set at read `found`. */
  ghost predicate StopsAt(lines: seq<Line>, exit: Exit, found: nat, read: nat, classify: Classifier) {
    var whole := Streamed(lines, exit, None, read, classify);
    var said := |Spoken(lines[..Before(lines, found, read)])|;
    && said < |whole|
    && Streamed(lines, exit, Some(found), read, classify) == if found > LastRead(lines, read) then whole else whole[..said]
  }

  lemma StopsBeforeAny(lines: seq<Line>, exit: Exit, found: nat, read: nat, classify: Classifier)
    requires found <= read || lines == [] || EndsStream(lines[0])
    ensures StopsAt(lines, exit, found, read, classify)
  {
    StreamTells(lines, exit, read, classify);
    assert lines[..0] == [];
  }

  /** A line that does not end the stream puts the same in front, stopped later or
      not. */
  lemma LineInFront(lines: seq<Line>, exit: Exit, found: nat, read: nat, classify: Classifier) returns (head: seq<Event>)
    requires found > read && lines != [] && !EndsStream(lines[0])
    ensures |head| == if Silent(lines[0]) then 0 else 1
    ensures Streamed(lines, exit, None, read, classify) == head + Streamed(lines[1..], exit, None, read + 1, classify)
    ensures Streamed(lines, exit, Some(found), read, classify) == head + Streamed(lines[1..], exit, Some(found), read + 1, classify)
  {
    head := if Silent(lines[0]) then [] else Streamed(lines, exit, None, read, classify)[..1];
  }

  lemma CutBehind(head: seq<Event>, below: seq<Event>, n: nat)
    requires n <= |below|
    ensures (head + below)[..|head| + n] == head + below[..n]
  {
  }

  lemma OneLineLater(lines: seq<Line>, found: nat, read: nat)
    requires found > read && lines != [] && !EndsStream(lines[0])
    ensures LastRead(lines, read) == LastRead(lines[1..], read + 1)
    ensures Before(lines, found, read) == Before(lines[1..], found, read + 1) + 1
    ensures |Spoken(lines[..Before(lines, found, read)])|
            == |Spoken(lines[1..][..Before(lines[1..], found, read + 1)])| + if Silent(lines[0]) then 0 else 1
  {
    assert Reached(lines)[1..] == Reached(lines[1..]);
    OneLineSpoken(lines, Before(lines, found, read));
  }

  lemma StopsOneLater(lines: seq<Line>, exit: Exit, found: nat, read: nat, classify: Classifier)
    requires found > read && lines != [] && !EndsStream(lines[0])
    requires StopsAt(lines[1..], exit, found, read + 1, classify)
    ensures StopsAt(lines, exit, found, read, classify)
  {
    var head := LineInFront(lines, exit, found, read, classify);
    OneLineLater(lines, found, read);
    CutBehind(head, Streamed(lines[1..], exit, None, read + 1, classify),
              |Spoken(lines[1..][..Before(lines[1..], found, read + 1)])|);
  }

  lemma {:induction false} StreamStops(lines: seq<Line>, exit: Exit, found: nat, read: nat, classify: Classifier)
    ensures StopsAt(lines, exit, found, read, classify)
    decreases |lines|
  {
    if found <= read || lines == [] || EndsStream(lines[0]) {
      StopsBeforeAny(lines, exit, found, read, classify);
    } else {
      StreamStops(lines[1..], exit, found, read + 1, classify);
      StopsOneLater(lines, exit, found, read, classify);
    }
  }

  lemma OneLineSpoken(lines: seq<Line>, n: nat)
    requires 0 < n <= |lines|
    ensures Spoken(lines[..n]) == (if Silent(lines[0]) then [] else [lines[0]]) + Spoken(lines[1..][..n - 1])
  {
    assert lines[..n] == [lines[0]] + lines[1..][..n - 1];
    assert lines[..n][1..] == lines[1..][..n - 1];
  }

  /** A stop takes effect at the first read that finds it set: the lines handled before
      that are told, nothing after it is, and the end is told only if all reads came
      before. */
  lemma StopTakesEffect(lines: seq<Line>, exit: Exit, found: nat, classify: Classifier)
    ensures var whole := Emitted(Streams(lines, exit), None, classify);
            var said := |Spoken(lines[..Before(lines, found, 1)])|;
            && said < |whole|
            && Emitted(Streams(lines, exit), Some(found), classify) == if found > LastRead(lines, 1) then whole else whole[..said]
  {
    StreamStops(lines, exit, found, 1, classify);
    assert lines[..0] == [];
  }

  // ----- What a drain leaves -----

  /** The connection status a non-terminal event calls for. */
  predicate Announces(event: Event, connection: Connection) {
    match event
    case Connecting(message) => connection == StConnecting(message)
    case Rows(rows) => connection == StOnline(|rows|)
    case Offline(message, _) => connection == StReconnecting(message)
    case _ => false
  }

  /** The last rows received and the last status announced; what nothing was received
      for stays. */
  predicate Shows(events: seq<Event>, key: Key, before: LiveState, state: LiveState) {
    var sent := RowsSent(events);
    && (if sent == [] then state.rows == before.rows && state.rowsRunnerKey == before.rowsRunnerKey
        else state.rows == sent[|sent| - 1] && state.rowsRunnerKey == Some(key))
    && (if events == [] then state.connection == before.connection
        else Announces(events[|events| - 1], state.connection))
  }

  lemma {:induction false} RowsSentSnoc(events: seq<Event>, event: Event)
    ensures RowsSent(events + [event]) == RowsSent(events) + if event.Rows? then [event.rows] else []
    decreases |events|
  {
    if events == [] {
      assert [event][1..] == [];
    } else {
      RowsSentSnoc(events[1..], event);
      assert (events + [event])[1..] == events[1..] + [event];
    }
  }

  lemma {:induction false} FoldShowsTheLast(events: seq<Event>, before: LiveState, key: Key, patterns: Patterns)
    requires forall i :: 0 <= i < |events| ==> !IsTerminal(events[i])
    ensures Shows(events, key, before, FoldAll(events, before, key, patterns))
    decreases |events|
  {
    if events != [] {
      var n := |events| - 1;
      assert events == events[..n] + [events[n]];
      FoldShowsTheLast(events[..n], before, key, patterns);
      FoldAllAppend(events[..n], events[n], before, key, patterns);
      RowsSentSnoc(events[..n], events[n]);
    }
  }

  /** How an end is classified: by its message, a shutdown always as recoverable, and a
      message that matches nothing by what ended. */
  predicate EndsAs(event: Event, patterns: Patterns, terminal: Terminal) {
    var text := match event
                case Connecting(message) => message
                case Rows(_) => ""
                case Offline(message, _) => message
                case Shutdown(message) => message
                case Fatal(message) => message;
    && terminal.message == text
    && (event.Shutdown? ==> terminal.Recoverable?)
    && (!event.Shutdown? ==>
          && (terminal.NoDaemon? <==> patterns.noDaemon(text))
          && (terminal.Mismatch? <==> patterns.mismatch(text) && !patterns.noDaemon(text))
          && (terminal.FatalEnd? ==> event.Fatal?) && (terminal.Recoverable? ==> !event.Fatal?))
  }

  /** What a drain leaves, of any queue: the state shows this subscription's last rows
      and last status before its first terminal event, and the drain ends as that event
      says, having said whether any rows came. */
  lemma DrainShowsTheLast(queue: seq<Envelope>, epoch: nat, key: Key, before: LiveState, patterns: Patterns, result: Consumed)
    requires Drains(queue, epoch, key, before, patterns, result)
    ensures var events := Mine(queue, key, epoch);
            var n := FirstTerminal(events);
            && Shows(events[..n], key, before, result.state)
            && (result.online <==> RowsSent(events[..n]) != [])
            && (result.Finished? <==> n < |events|)
            && (result.Finished? ==> EndsAs(events[n], patterns, result.terminal))
  {
    var events := Mine(queue, key, epoch);
    var n := FirstTerminal(events);
    FoldShowsTheLast(events[..n], before, key, patterns);
    RowsAreSent(events[..n]);
  }

  lemma {:induction false} RowsAreSent(events: seq<Event>)
    ensures HasRows(events) <==> RowsSent(events) != []
    decreases |events|
  {
    if events != [] {
      RowsAreSent(events[1..]);
      if HasRows(events[1..]) {
        var i :| 0 <= i < |events[1..]| && events[1..][i].Rows?;
        assert events[i + 1].Rows?;
      }
      if HasRows(events) {
        var i :| 0 <= i < |events| && events[i].Rows?;
        assert i > 0 ==> events[1..][i - 1].Rows?;
      }
    }
  }

  /** From the child's output to the picker: once a worker that is never stopped has
      ended, the rows shown are those of its last valid snapshot, and those from before
      if it sent none. */
  lemma DrainShowsTheLastSnapshot(queue: seq<Envelope>, epoch: nat, key: Key, before: LiveState, patterns: Patterns,
                                  result: Consumed, lines: seq<Line>, exit: Exit, classify: Classifier)
    requires Drains(queue, epoch, key, before, patterns, result)
    requires Mine(queue, key, epoch) == Emitted(Streams(lines, exit), None, classify)
    ensures var sent := Snapshots(Reached(lines));
            && result.Finished? && (result.online <==> sent != [])
            && result.state.rows == (if sent == [] then before.rows else sent[|sent| - 1])
            && result.state.rowsRunnerKey == if sent == [] then before.rowsRunnerKey else Some(key)
  {
    DrainTakesTheWholeRun(queue, epoch, key, before, patterns, result, Streams(lines, exit), classify);
    DrainShowsTheLast(queue, epoch, key, before, patterns, result);
    AllButTheEnd(lines, exit, classify);
  }

  lemma AllButTheEnd(lines: seq<Line>, exit: Exit, classify: Classifier)
    ensures var events := Emitted(Streams(lines, exit), None, classify);
            FirstTerminal(events) == |events| - 1 && RowsSent(events[..|events| - 1]) == Snapshots(Reached(lines))
  {
    var events := Emitted(Streams(lines, exit), None, classify);
    var n := |events| - 1;
    WorkerEndsOnce(Streams(lines, exit), None, classify);
    FirstTerminalAt(events, n);
    SentRowsAreTheSnapshots(lines, exit, classify);
    assert events == events[..n] + [events[n]];
    RowsSentSnoc(events[..n], events[n]);
  }
}
