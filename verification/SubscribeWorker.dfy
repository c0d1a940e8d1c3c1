/**
 One run of the single-shot subscribe worker (desktop/src-tauri/src/subscribe.rs,
 run_live_picker_subscription): which events it emits for any outcome of the
 launch, any stream of lines and read errors, and any moment of being stopped.
 Decoded frames, error texts and the child's exit are inputs.
 */
module SubscribeWorker {
  import opened Options

  type Row = string

  datatype Event =
    | Connecting(message: string)
    | Rows(rows: seq<Row>)
    | Offline(message: string, retrying: bool)
    | Shutdown(message: string)
    | Fatal(message: string)

  datatype Frame =
    | ConnectingFrame(message: string)
    | SnapshotFrame(rows: seq<Row>, invalid: Option<string>) // what row validation says
    | OfflineFrame(message: string, retrying: bool)
    | ShutdownFrame(message: string)
    | FatalFrame(message: string)
    | Keepalive
    | UnknownFrame

  datatype Line = Blank | Decoded(frame: Frame) | Malformed(error: string) | ReadError(error: string)

  // How the child ended, if anyone could tell, and its trimmed stderr.
  datatype Exit = Exit(status: Option<string>, stderr: string)

  datatype Launch =
    | CommandFails(error: string)
    | SpawnFails(error: string)
    | NoStdout
    | SlotPoisoned
    | Streams(lines: seq<Line>, exit: Exit) // the lines read until end of file

  datatype WorkerExit = Retry | Ended

  // classify_desktop_failure for the runner at hand.
  type Classifier = string -> string

  // The stop flag: the number of the read that first finds it set, if any does.
  // Reads are numbered in program order; once set it stays set.
  type StopFlag = Option<nat>

  predicate IsSet(stop: StopFlag, read: nat) {
    stop.Some? && stop.value <= read
  }

  function EventOfFrame(frame: Frame, classify: Classifier): Option<(Event, WorkerExit)> {
    match frame
    case ConnectingFrame(message) => Some((Connecting(message), Retry))
    case SnapshotFrame(rows, invalid) =>
      (match invalid
       case Some(message) => Some((Offline(classify(message), true), Retry))
       case None => Some((Rows(rows), Retry)))
    case OfflineFrame(message, retrying) =>
      Some((Offline(message, retrying), if retrying then Retry else Ended))
    case ShutdownFrame(message) => Some((Shutdown(message), Ended))
    case FatalFrame(message) => Some((Fatal(message), Ended))
    case Keepalive => None
    case UnknownFrame => None
  }

  function ExitMessage(exit: Exit): string {
    match exit.status
    case Some(status) => if exit.stderr == "" then status else status + ": " + exit.stderr
    case None => if exit.stderr == "" then "agentscan subscribe exited" else exit.stderr
  }

  function MalformedEvent(error: string, classify: Classifier): Event {
    Offline(classify("Invalid agentscan subscribe frame: " + error), false)
  }

  function ReadErrorEvent(error: string, classify: Classifier): Event {
    Offline(classify("Unable to read agentscan subscribe output: " + error), false)
  }

  function ExitEvent(exit: Exit, classify: Classifier): Event {
    Offline(classify(ExitMessage(exit)), false)
  }

  /** The events of the line loop and of what follows it, when the next read of
      the flag is number `read`. */
  function Streamed(lines: seq<Line>, exit: Exit, stop: StopFlag, read: nat, classify: Classifier): seq<Event> {
    if IsSet(stop, read) then []
    else if lines == [] then [ExitEvent(exit, classify)]
    else
      match lines[0]
      case Blank => Streamed(lines[1..], exit, stop, read + 1, classify)
      case Decoded(frame) =>
        (match EventOfFrame(frame, classify)
         case None => Streamed(lines[1..], exit, stop, read + 1, classify)
         case Some((event, Retry)) => [event] + Streamed(lines[1..], exit, stop, read + 1, classify)
         case Some((event, Ended)) => [event])
      case Malformed(error) => [MalformedEvent(error, classify)]
      case ReadError(error) => if IsSet(stop, read + 1) then [] else [ReadErrorEvent(error, classify)]
  }

  function Emitted(launch: Launch, stop: StopFlag, classify: Classifier): seq<Event> {
    match launch
    case CommandFails(error) => [Fatal(classify(error))]
    case SpawnFails(error) => [Offline(classify("Unable to start agentscan subscribe: " + error), false)]
    case NoStdout => [Offline("agentscan subscribe did not expose stdout", false)]
    case SlotPoisoned => [Offline(classify("agentscan subscribe state was poisoned"), false)]
    case Streams(lines, exit) => if IsSet(stop, 0) then [] else Streamed(lines, exit, stop, 1, classify)
  }

  /** The worker as written; ReadLines is its loop over the lines, with two flags that
      decide whether the exit of the child is still to be reported. */
  method RunSubscription(launch: Launch, stop: StopFlag, classify: Classifier) returns (emitted: seq<Event>)
    ensures emitted == Emitted(launch, stop, classify)
  {
    match launch {
      case CommandFails(error) =>
        return [Fatal(classify(error))];
      case SpawnFails(error) =>
        return [Offline(classify("Unable to start agentscan subscribe: " + error), false)];
      case NoStdout =>
        return [Offline("agentscan subscribe did not expose stdout", false)];
      case SlotPoisoned =>
        return [Offline(classify("agentscan subscribe state was poisoned"), false)];
      case Streams(lines, exit) =>
        if IsSet(stop, 0) {
          return [];
        }
        emitted := ReadLines(lines, exit, stop, classify);
    }
  }

  method ReadLines(lines: seq<Line>, exit: Exit, stop: StopFlag, classify: Classifier) returns (emitted: seq<Event>)
    ensures emitted == Streamed(lines, exit, stop, 1, classify)
  {
    emitted := [];
    var sawTerminal, reportedOffline := false, false;
    var i, read := 0, 1;
    while i < |lines|
      invariant 0 <= i <= |lines| && read == i + 1
      invariant !sawTerminal && !reportedOffline
      invariant emitted + Streamed(lines[i..], exit, stop, read, classify) == Streamed(lines, exit, stop, 1, classify)
    {
      assert lines[i..][0] == lines[i] && lines[i..][1..] == lines[i + 1..];
      if IsSet(stop, read) {
        break;
      }
      read := read + 1;
      match lines[i] {
        case Blank =>
        case Decoded(frame) =>
          match EventOfFrame(frame, classify) {
            case None =>
            case Some((event, workerExit)) =>
              OneMoreEvent(emitted, event, Streamed(lines[i + 1..], exit, stop, read, classify));
              emitted := emitted + [event];
              if workerExit == Ended {
                sawTerminal := true;
                break;
              }
          }
        case Malformed(error) =>
          emitted := emitted + [MalformedEvent(error, classify)];
          reportedOffline := true;
          break;
        case ReadError(error) =>
          if !IsSet(stop, read) {
            emitted := emitted + [ReadErrorEvent(error, classify)];
            reportedOffline := true;
          }
          break;
      }
      i := i + 1;
    }
    if !IsSet(stop, read) && !sawTerminal && !reportedOffline {
      emitted := emitted + [ExitEvent(exit, classify)];
    }
  }

  lemma OneMoreEvent(emitted: seq<Event>, event: Event, rest: seq<Event>)
    ensures emitted + ([event] + rest) == (emitted + [event]) + rest
  {
  }

  // ----- One terminal event, and it is the last -----

  predicate IsTerminal(event: Event) {
    match event
    case Connecting(_) => false
    case Rows(_) => false
    case Offline(_, retrying) => !retrying
    case Shutdown(_) => true
    case Fatal(_) => true
  }

  predicate TerminalOnlyLast(events: seq<Event>) {
    forall i :: 0 <= i < |events| - 1 ==> !IsTerminal(events[i])
  }

  predicate EndsOnce(events: seq<Event>) {
    events != [] && IsTerminal(events[|events| - 1]) && TerminalOnlyLast(events)
  }

  lemma {:induction false} StreamedEnds(lines: seq<Line>, exit: Exit, stop: StopFlag, read: nat, classify: Classifier)
    ensures TerminalOnlyLast(Streamed(lines, exit, stop, read, classify))
    ensures stop == None ==> EndsOnce(Streamed(lines, exit, stop, read, classify))
    decreases |lines|
  {
    if !IsSet(stop, read) && lines != [] {
      StreamedEnds(lines[1..], exit, stop, read + 1, classify);
    }
  }

  /** A run that is never stopped emits exactly one terminal event, as its last
      event; a stopped run emits at most one, and nothing after it. */
  lemma WorkerEndsOnce(launch: Launch, stop: StopFlag, classify: Classifier)
    ensures TerminalOnlyLast(Emitted(launch, stop, classify))
    ensures stop == None ==> EndsOnce(Emitted(launch, stop, classify))
  {
    if launch.Streams? {
      StreamedEnds(launch.lines, launch.exit, stop, 1, classify);
    }
  }

  /** The two streams agree on their first n lines, and the flag is found set at the
      next read after those. */
  ghost predicate CutAt(lines: seq<Line>, longer: seq<Line>, n: nat, stop: StopFlag, read: nat) {
    n <= |lines| && n <= |longer| && lines[..n] == longer[..n] && IsSet(stop, read + n)
  }

  lemma {:induction false} StreamedCut(lines: seq<Line>, exit: Exit, longer: seq<Line>, exit': Exit,
                                       n: nat, stop: StopFlag, read: nat, classify: Classifier)
    requires CutAt(lines, longer, n, stop, read)
    ensures Streamed(lines, exit, stop, read, classify) <= Streamed(longer, exit', None, read, classify)
    decreases n
  {
    if !IsSet(stop, read) {
      assert n > 0 && lines[..n][0] == longer[..n][0];
      assert lines[1..][..n - 1] == lines[..n][1..] && longer[1..][..n - 1] == longer[..n][1..];
      StreamedCut(lines[1..], exit, longer[1..], exit', n - 1, stop, read + 1, classify);
    }
  }

  lemma {:induction false} StreamedStopped(lines: seq<Line>, exit: Exit, stop: StopFlag, read: nat, classify: Classifier)
    ensures Streamed(lines, exit, stop, read, classify) <= Streamed(lines, exit, None, read, classify)
    decreases |lines|
  {
    if !IsSet(stop, read) && lines != [] {
      StreamedStopped(lines[1..], exit, stop, read + 1, classify);
    }
  }

  /** `killed` is what a stop's kill may leave of the run `whole`: the same stream up to
      the first read that finds the flag set, then anything, such as an early end, a
      broken line or a read error, and any exit. */
  ghost predicate LeftByKill(killed: Launch, whole: Launch, stop: StopFlag) {
    || killed == whole
    || (killed.Streams? && whole.Streams? && exists n: nat :: CutAt(killed.lines, whole.lines, n, stop, 1))
  }

  /** Stopping a worker only cuts its event sequence short, whatever its kill does to
      the rest of the stream. */
  lemma StoppingOnlyTruncates(killed: Launch, whole: Launch, stop: StopFlag, classify: Classifier)
    requires LeftByKill(killed, whole, stop)
    ensures Emitted(killed, stop, classify) <= Emitted(whole, None, classify)
  {
    if killed == whole {
      if whole.Streams? {
        StreamedStopped(whole.lines, whole.exit, stop, 1, classify);
      }
    } else {
      var n: nat :| CutAt(killed.lines, whole.lines, n, stop, 1);
      StreamedCut(killed.lines, killed.exit, whole.lines, whole.exit, n, stop, 1, classify);
    }
  }
}
