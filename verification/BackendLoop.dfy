/** The backend stream's loop: one select over queued commands and inbound websocket messages. */
module BackendLoop {
  import opened Wrappers

  datatype SignatureObservation = SignatureObservation(endpoint: string, timestamp: real, backfilled: bool)

  datatype Envelope = Envelope(signature: string, observations: seq<SignatureObservation>)

  datatype Command = Signature(envelope: Envelope) | End

  datatype Status =
    | Initializing
    | Ready(runId: string)
    | Completed(response: string)
    | Failed(message: string)
  {
    predicate Terminal() {
      Completed? || Failed?
    }
  }

  type Payload = seq<bv8>

  /** A message text that parsed, by its type tag. */
  datatype Parsed =
    | StartAck(ackRunId: string, sessionNonce: string, startedAtUnixMs: Option<int>)
    | CompletedMessage(data: string)
    | ErrorMessage(message: string, errRun: Option<string>)
    | OtherMessage

  datatype Inbound =
    | TextFrame(parsed: Result<Parsed, string>)
    | PingFrame(payload: Payload)
    | ClosedByPeer(reason: Option<string>)
    | IgnoredFrame
    | SocketError(error: string)
    | StreamEnd

  datatype Frame =
    | SignatureFrame(envelope: Envelope)
    | EndFrame
    | PongFrame(payload: Payload)
    | CloseFrame

  datatype WriteResult = Written | SendFailed(error: string) | SerialiseFailed(error: string)

  /**
   * One turn of the loop as its environment presents it: which ready branch the select takes, what
   * either branch would deliver, and how the write that follows goes.
   */
  datatype Turn = Turn(command: bool, received: Option<Command>, inbound: Inbound, write: WriteResult)

  /** `consumed`, `pings` and `done` record what was received and whether the loop was left. */
  datatype Loop = Loop(awaiting: bool, frames: seq<Frame>, statuses: seq<Status>,
                       consumed: seq<Command>, pings: seq<(Payload, bool)>, done: bool)

  const FRESH_LOOP := Loop(false, [], [], [], [], false)

  /** The guard keeps the command branch out once `End` has been sent. */
  predicate TakesCommand(l: Loop, t: Turn) {
    !l.awaiting && t.command
  }

  function Leave(l: Loop, status: Status): Loop {
    l.(statuses := l.statuses + [status], done := true)
  }

  function OnCommand(l: Loop, received: Option<Command>, write: WriteResult): Loop {
    match received
    case None => Leave(l, Failed("signature channel closed unexpectedly"))
    case Some(Signature(envelope)) =>
      var l' := l.(consumed := l.consumed + [Signature(envelope)]);
      if write.Written? then l'.(frames := l.frames + [SignatureFrame(envelope)])
      else Leave(l', Failed("failed to send signature: " + write.error))
    case Some(End) =>
      var l' := l.(consumed := l.consumed + [End]);
      match write
      case Written => l'.(frames := l.frames + [EndFrame], awaiting := true)
      case SendFailed(error) => Leave(l', Failed("failed to send end frame: " + error))
      case SerialiseFailed(error) => Leave(l', Failed("failed to serialise end frame: " + error))
  }

  function OnInbound(l: Loop, inbound: Inbound, write: WriteResult): Loop {
    match inbound
    case TextFrame(Ok(CompletedMessage(data))) =>
      Leave(if write.Written? then l.(frames := l.frames + [CloseFrame]) else l, Completed(data))
    case TextFrame(Ok(ErrorMessage(message, _))) => Leave(l, Failed(message))
    case TextFrame(_) => l
    case PingFrame(payload) =>
      l.(frames := if write.Written? then l.frames + [PongFrame(payload)] else l.frames,
         pings := l.pings + [(payload, write.Written?)])
    case ClosedByPeer(reason) =>
      Leave(l, Failed("backend closed connection: " + if reason.Some? then reason.value else ""))
    case IgnoredFrame => l
    case SocketError(error) => Leave(l, Failed("backend websocket error: " + error))
    case StreamEnd => Leave(l, Failed("backend websocket closed unexpectedly"))
  }

  function Iterate(l: Loop, t: Turn): Loop {
    if l.done then l
    else if TakesCommand(l, t) then OnCommand(l, t.received, t.write)
    else OnInbound(l, t.inbound, t.write)
  }

  function Run(turns: seq<Turn>): Loop {
    if turns == [] then FRESH_LOOP else Iterate(Run(turns[..|turns| - 1]), turns[|turns| - 1])
  }

  lemma {:induction false} DoneIsFinal(turns: seq<Turn>, n: nat)
    requires n <= |turns| && Run(turns[..n]).done
    ensures Run(turns) == Run(turns[..n])
  {
    if n < |turns| {
      var init := turns[..|turns| - 1];
      assert init[..n] == turns[..n];
      DoneIsFinal(init, n);
    } else {
      assert turns[..n] == turns;
    }
  }

  // ----- what the turns say, without the loop's state -----

  /** An earlier turn has sent the end frame, which shuts the command branch. */
  predicate EndSentBefore(turns: seq<Turn>, i: nat)
    requires i <= |turns|
  {
    exists j :: 0 <= j < i && turns[j].command && turns[j].received == Some(End) && turns[j].write.Written?
  }

  predicate CommandAt(turns: seq<Turn>, i: nat)
    requires i < |turns|
  {
    turns[i].command && !EndSentBefore(turns, i)
  }

  /** Turn `i` does not end the loop. */
  predicate StaysAt(turns: seq<Turn>, i: nat)
    requires i < |turns|
  {
    if CommandAt(turns, i) then turns[i].received.Some? && turns[i].write.Written?
    else
      match turns[i].inbound
      case TextFrame(Ok(CompletedMessage(_))) => false
      case TextFrame(Ok(ErrorMessage(_, _))) => false
      case ClosedByPeer(_) => false
      case SocketError(_) => false
      case StreamEnd => false
      case _ => true
  }

  /** Turn `n` is the first that ends the loop. */
  ghost predicate LeavesAt(turns: seq<Turn>, n: nat) {
    n < |turns| && !StaysAt(turns, n) && forall i :: 0 <= i < n ==> StaysAt(turns, i)
  }

  predicate CompletedBy(turns: seq<Turn>, n: nat, data: string)
    requires n < |turns|
  {
    !CommandAt(turns, n) && turns[n].inbound == TextFrame(Ok(CompletedMessage(data)))
  }

  /** The text under which turn `n` is reported as a failure. */
  predicate FailedBy(turns: seq<Turn>, n: nat, message: string)
    requires n < |turns|
  {
    var t := turns[n];
    if CommandAt(turns, n) then
      match (t.received, t.write)
      case (None, _) => message == "signature channel closed unexpectedly"
      case (Some(Signature(_)), SendFailed(error)) => message == "failed to send signature: " + error
      case (Some(Signature(_)), SerialiseFailed(error)) => message == "failed to send signature: " + error
      case (Some(End), SendFailed(error)) => message == "failed to send end frame: " + error
      case (Some(End), SerialiseFailed(error)) => message == "failed to serialise end frame: " + error
      case _ => false
    else
      match t.inbound
      case TextFrame(Ok(ErrorMessage(text, _))) => message == text
      case ClosedByPeer(None) => message == "backend closed connection: "
      case ClosedByPeer(Some(reason)) => message == "backend closed connection: " + reason
      case SocketError(error) => message == "backend websocket error: " + error
      case StreamEnd => message == "backend websocket closed unexpectedly"
      case _ => false
  }

  predicate ReportedAs(turns: seq<Turn>, n: nat, status: Status)
    requires n < |turns|
  {
    match status
    case Completed(data) => CompletedBy(turns, n, data)
    case Failed(message) => FailedBy(turns, n, message)
    case _ => false
  }

  /** What turn `i` puts on the wire: a command's frame, a ping's payload back, or a close after completion. */
  function FrameAt(turns: seq<Turn>, i: nat): seq<Frame>
    requires i < |turns|
  {
    if !turns[i].write.Written? then []
    else if CommandAt(turns, i) then
      match turns[i].received
      case Some(Signature(envelope)) => [SignatureFrame(envelope)]
      case Some(End) => [EndFrame]
      case None => []
    else
      match turns[i].inbound
      case PingFrame(payload) => [PongFrame(payload)]
      case TextFrame(Ok(CompletedMessage(_))) => [CloseFrame]
      case _ => []
  }

  /** The frames of the first `n` turns. */
  function FramesUpTo(turns: seq<Turn>, n: nat): seq<Frame>
    requires n <= |turns|
  {
    if n == 0 then [] else FramesUpTo(turns, n - 1) + FrameAt(turns, n - 1)
  }

  /** The loop's output is what the turns up to the first that ends it say, and nothing after. */
  ghost predicate AsTold(turns: seq<Turn>, frames: seq<Frame>, statuses: seq<Status>, done: bool) {
    if done then
      exists n: nat :: LeavesAt(turns, n) && |statuses| == 1 && ReportedAs(turns, n, statuses[0])
                       && frames == FramesUpTo(turns, n + 1)
    else
      && (forall i :: 0 <= i < |turns| ==> StaysAt(turns, i))
      && statuses == [] && frames == FramesUpTo(turns, |turns|)
  }

  lemma PrefixTold(turns: seq<Turn>, t: Turn, i: nat)
    requires i < |turns|
    ensures EndSentBefore(turns + [t], i) == EndSentBefore(turns, i)
    ensures CommandAt(turns + [t], i) == CommandAt(turns, i) && StaysAt(turns + [t], i) == StaysAt(turns, i)
    ensures FrameAt(turns + [t], i) == FrameAt(turns, i)
    ensures forall status :: ReportedAs(turns + [t], i, status) == ReportedAs(turns, i, status)
  {
    var all := turns + [t];
    assert forall j :: 0 <= j <= i ==> all[j] == turns[j];
  }

  lemma {:induction false} FramesKept(turns: seq<Turn>, t: Turn, n: nat)
    requires n <= |turns|
    ensures FramesUpTo(turns + [t], n) == FramesUpTo(turns, n)
  {
    if n > 0 {
      FramesKept(turns, t, n - 1);
      PrefixTold(turns, t, n - 1);
    }
  }

  lemma EndSentStep(turns: seq<Turn>, t: Turn)
    ensures EndSentBefore(turns + [t], |turns|) == EndSentBefore(turns, |turns|)
    ensures EndSentBefore(turns + [t], |turns| + 1) <==>
            EndSentBefore(turns, |turns|) || (t.command && t.received == Some(End) && t.write.Written?)
  {
    var all := turns + [t];
    assert all[|turns|] == t && forall j :: 0 <= j < |turns| ==> all[j] == turns[j];
  }

  /** The turn that is taken while the loop runs, against the loop's own step. */
  lemma IterateAsTold(turns: seq<Turn>, t: Turn, l: Loop)
    requires !l.done && l.awaiting == EndSentBefore(turns, |turns|)
    ensures var all, n, l' := turns + [t], |turns|, Iterate(l, t);
            && (l'.done <==> !StaysAt(all, n))
            && l'.frames == l.frames + FrameAt(all, n)
            && (if l'.done then |l'.statuses| == |l.statuses| + 1 && l.statuses <= l'.statuses
                                && ReportedAs(all, n, l'.statuses[|l.statuses|])
                else l'.statuses == l.statuses && l'.awaiting == EndSentBefore(all, n + 1))
  {
    EndSentStep(turns, t);
    assert (turns + [t])[|turns|] == t;
  }

  lemma ToldDone(turns: seq<Turn>, t: Turn, l: Loop)
    requires l.done && AsTold(turns, l.frames, l.statuses, true)
    ensures AsTold(turns + [t], l.frames, l.statuses, true)
  {
    var n: nat :| LeavesAt(turns, n) && |l.statuses| == 1 && ReportedAs(turns, n, l.statuses[0])
                  && l.frames == FramesUpTo(turns, n + 1);
    forall i | 0 <= i <= n ensures StaysAt(turns + [t], i) == StaysAt(turns, i) {
      PrefixTold(turns, t, i);
    }
    PrefixTold(turns, t, n);
    FramesKept(turns, t, n + 1);
    assert LeavesAt(turns + [t], n);
  }

  lemma ToldRunning(turns: seq<Turn>, t: Turn, l: Loop)
    requires !l.done && AsTold(turns, l.frames, l.statuses, false) && l.awaiting == EndSentBefore(turns, |turns|)
    ensures AsTold(turns + [t], Iterate(l, t).frames, Iterate(l, t).statuses, Iterate(l, t).done)
  {
    var all, n, l' := turns + [t], |turns|, Iterate(l, t);
    IterateAsTold(turns, t, l);
    forall i | 0 <= i < n ensures StaysAt(all, i) {
      PrefixTold(turns, t, i);
    }
    FramesKept(turns, t, n);
    assert l'.frames == FramesUpTo(all, n + 1);
    if l'.done {
      assert LeavesAt(all, n);
    }
  }

  /** For every environment: the loop's frames, its status and its end are what the turns say. */
  lemma {:induction false} LoopAsTold(turns: seq<Turn>)
    ensures AsTold(turns, Run(turns).frames, Run(turns).statuses, Run(turns).done)
    ensures !Run(turns).done ==> Run(turns).awaiting == EndSentBefore(turns, |turns|)
  {
    if turns != [] {
      var init, t := turns[..|turns| - 1], turns[|turns| - 1];
      assert turns == init + [t];
      LoopAsTold(init);
      if Run(init).done {
        ToldDone(init, t, Run(init));
      } else {
        IterateAsTold(init, t, Run(init));
        ToldRunning(init, t, Run(init));
      }
    }
  }

  lemma ReportUnique(turns: seq<Turn>, n: nat, s: Status, s': Status)
    requires n < |turns| && ReportedAs(turns, n, s) && ReportedAs(turns, n, s')
    ensures s == s'
  {
  }

  lemma LeavesOnce(turns: seq<Turn>, n: nat, m: nat)
    requires LeavesAt(turns, n) && LeavesAt(turns, m)
    ensures n == m
  {
    assert !StaysAt(turns, n) && !StaysAt(turns, m);
  }

  /**
   * The first turn that ends the loop decides its status: `Completed` exactly for the completed message
   * with that text, `Failed` exactly with the text of that turn's failure.
   */
  lemma StatusExactly(turns: seq<Turn>, n: nat, status: Status)
    requires LeavesAt(turns, n)
    ensures Run(turns).done
    ensures Run(turns).statuses == [status] <==> ReportedAs(turns, n, status)
  {
    LoopAsTold(turns);
    var l := Run(turns);
    assert !StaysAt(turns, n);
    StatusOf(turns, n, l.statuses, l.frames, status);
  }

  lemma StatusOf(turns: seq<Turn>, n: nat, statuses: seq<Status>, frames: seq<Frame>, status: Status)
    requires LeavesAt(turns, n) && AsTold(turns, frames, statuses, true)
    ensures statuses == [status] <==> ReportedAs(turns, n, status)
  {
    var m: nat :| LeavesAt(turns, m) && |statuses| == 1 && ReportedAs(turns, m, statuses[0])
                  && frames == FramesUpTo(turns, m + 1);
    LeavesOnce(turns, n, m);
    assert statuses == [statuses[0]];
    if ReportedAs(turns, n, status) {
      ReportUnique(turns, n, status, statuses[0]);
    }
  }

  /** The loop as written: it runs until it breaks or its turns are used up. */
  method RunBackendLoop(turns: seq<Turn>) returns (frames: seq<Frame>, statuses: seq<Status>, broke: bool)
    ensures frames == Run(turns).frames && statuses == Run(turns).statuses && broke == Run(turns).done
    ensures WellShaped(Run(turns)) && AsTold(turns, frames, statuses, broke)
  {
    var awaitingCompletion := false;
    frames, statuses, broke := [], [], false;
    var i := 0;
    while i < |turns| && !broke
      invariant 0 <= i <= |turns|
      invariant var l := Run(turns[..i]);
                (awaitingCompletion, frames, statuses, broke) == (l.awaiting, l.frames, l.statuses, l.done)
    {
      assert turns[..i + 1][..i] == turns[..i];
      var turn := turns[i];
      i := i + 1;
      if !awaitingCompletion && turn.command {
        match turn.received {
          case Some(Signature(batch)) =>
            if turn.write.Written? {
              frames := frames + [SignatureFrame(batch)];
            } else {
              statuses := statuses + [Failed("failed to send signature: " + turn.write.error)];
              broke := true;
            }
          case Some(End) =>
            match turn.write {
              case Written =>
                frames := frames + [EndFrame];
                awaitingCompletion := true;
              case SendFailed(error) =>
                statuses := statuses + [Failed("failed to send end frame: " + error)];
                broke := true;
              case SerialiseFailed(error) =>
                statuses := statuses + [Failed("failed to serialise end frame: " + error)];
                broke := true;
            }
          case None =>
            statuses := statuses + [Failed("signature channel closed unexpectedly")];
            broke := true;
        }
      } else {
        match turn.inbound {
          case TextFrame(Ok(CompletedMessage(data))) =>
            statuses := statuses + [Completed(data)];
            if turn.write.Written? {
              frames := frames + [CloseFrame];
            }
            broke := true;
          case TextFrame(Ok(ErrorMessage(message, _))) =>
            statuses := statuses + [Failed(message)];
            broke := true;
          case TextFrame(_) =>
          case PingFrame(payload) =>
            if turn.write.Written? {
              frames := frames + [PongFrame(payload)];
            }
          case ClosedByPeer(reason) =>
            statuses := statuses + [Failed("backend closed connection: " + if reason.Some? then reason.value else "")];
            broke := true;
          case IgnoredFrame =>
          case SocketError(error) =>
            statuses := statuses + [Failed("backend websocket error: " + error)];
            broke := true;
          case StreamEnd =>
            statuses := statuses + [Failed("backend websocket closed unexpectedly")];
            broke := true;
        }
      }
    }
    if i < |turns| {
      DoneIsFinal(turns, i);
    } else {
      assert turns[..i] == turns;
    }
    EveryRunIsWellShaped(turns);
    LoopAsTold(turns);
  }

  // ----- the shape of the wire log -----

  /** The frames other than pongs. */
  function DataFrames(frames: seq<Frame>): seq<Frame> {
    if frames == [] then []
    else
      var f := frames[|frames| - 1];
      DataFrames(frames[..|frames| - 1]) + if f.PongFrame? then [] else [f]
  }

  function PongPayloads(frames: seq<Frame>): seq<Payload> {
    if frames == [] then []
    else
      var f := frames[|frames| - 1];
      PongPayloads(frames[..|frames| - 1]) + if f.PongFrame? then [f.payload] else []
  }

  function AnsweredPings(pings: seq<(Payload, bool)>): seq<Payload> {
    if pings == [] then []
    else
      var p := pings[|pings| - 1];
      AnsweredPings(pings[..|pings| - 1]) + if p.1 then [p.0] else []
  }

  predicate AllSignatures(commands: seq<Command>) {
    forall i :: 0 <= i < |commands| ==> commands[i].Signature?
  }

  /** The frames that carry these commands, one for each. */
  function FramesFor(commands: seq<Command>): (r: seq<Frame>)
    ensures |r| == |commands|
    ensures forall i :: 0 <= i < |r| ==>
              r[i] == if commands[i].End? then EndFrame else SignatureFrame(commands[i].envelope)
  {
    seq(|commands|, i requires 0 <= i < |commands| =>
      if commands[i].End? then EndFrame else SignatureFrame(commands[i].envelope))
  }

  /**
   * Apart from pongs, the wire carries the first `sent` consumed commands in order: signatures, then
   * at most one `End`, which is the last command ever consumed; then possibly one `Close`, only after
   * completion. At most the last command consumed is not on the wire, and only when its write failed.
   */
  ghost predicate WireShape(l: Loop) {
    exists sent: nat :: WireShapeAt(l, sent)
  }

  ghost predicate WireShapeAt(l: Loop, sent: nat) {
    && sent <= |l.consumed| <= sent + 1
    && (sent < |l.consumed| ==> l.done && l.statuses != [] && l.statuses[|l.statuses| - 1].Failed?)
    && (|l.consumed| > 0 ==> AllSignatures(l.consumed[..|l.consumed| - 1]))
    && (l.awaiting <==> sent > 0 && l.consumed[sent - 1].End?)
    && (|| DataFrames(l.frames) == FramesFor(l.consumed[..sent])
        || (DataFrames(l.frames) == FramesFor(l.consumed[..sent]) + [CloseFrame]
            && l.frames[|l.frames| - 1] == CloseFrame
            && l.done && l.statuses != [] && l.statuses[|l.statuses| - 1].Completed?))
    && (!l.done ==> DataFrames(l.frames) == FramesFor(l.consumed))
  }

  /** Exactly one terminal status when the loop has been left, none before. */
  ghost predicate OneTerminal(l: Loop) {
    if l.done then |l.statuses| == 1 && l.statuses[0].Terminal() else l.statuses == []
  }

  ghost predicate PongsEcho(l: Loop) {
    PongPayloads(l.frames) == AnsweredPings(l.pings)
  }

  lemma FrameAppended(frames: seq<Frame>, f: Frame)
    ensures DataFrames(frames + [f]) == DataFrames(frames) + if f.PongFrame? then [] else [f]
    ensures PongPayloads(frames + [f]) == PongPayloads(frames) + if f.PongFrame? then [f.payload] else []
  {
    assert (frames + [f])[..|frames|] == frames;
  }

  lemma FramesForAppended(commands: seq<Command>, c: Command, f: Frame)
    requires f == if c.End? then EndFrame else SignatureFrame(c.envelope)
    ensures FramesFor(commands + [c]) == FramesFor(commands) + [f]
  {
  }

  lemma WrittenKeepsShape(l: Loop, c: Command, f: Frame, l': Loop)
    requires !l.done && !l.awaiting && WireShape(l)
    requires f == if c.End? then EndFrame else SignatureFrame(c.envelope)
    requires l' == l.(consumed := l.consumed + [c], frames := l.frames + [f], awaiting := c.End?)
    ensures WireShape(l') && PongPayloads(l'.frames) == PongPayloads(l.frames)
  {
    var sent: nat :| WireShapeAt(l, sent);
    FrameAppended(l.frames, f);
    FramesForAppended(l.consumed, c, f);
    assert l'.consumed[..sent + 1] == l'.consumed && l'.consumed[..|l'.consumed| - 1] == l.consumed;
    assert l.consumed[..sent] == l.consumed;
    assert AllSignatures(l.consumed) by {
      if sent > 0 {
        assert !l.consumed[sent - 1].End?;
      }
    }
    assert WireShapeAt(l', sent + 1);
  }

  lemma FailedKeepsShape(l: Loop, unsent: seq<Command>, l': Loop, message: string)
    requires !l.done && !l.awaiting && WireShape(l) && OneTerminal(l) && |unsent| <= 1
    requires l' == Leave(l.(consumed := l.consumed + unsent), Failed(message))
    ensures WireShape(l') && OneTerminal(l')
  {
    var sent: nat :| WireShapeAt(l, sent);
    assert l.consumed[..sent] == l.consumed && l'.consumed[..sent] == l.consumed;
    assert AllSignatures(l.consumed) by {
      if sent > 0 {
        assert !l.consumed[sent - 1].End?;
      }
    }
    assert unsent != [] ==> l'.consumed[..|l'.consumed| - 1] == l.consumed;
    assert WireShapeAt(l', sent);
  }

  lemma CommandKeepsShape(l: Loop, received: Option<Command>, write: WriteResult)
    requires !l.done && !l.awaiting && WellShaped(l)
    ensures WellShaped(OnCommand(l, received, write))
  {
    var l' := OnCommand(l, received, write);
    if received.Some? && write.Written? {
      WrittenKeepsShape(l, received.value, l'.frames[|l.frames|], l');
    } else {
      var unsent := if received.None? then [] else [received.value];
      assert l.consumed + [] == l.consumed;
      FailedKeepsShape(l, unsent, l', l'.statuses[|l.statuses|].message);
    }
  }

  ghost predicate WellShaped(l: Loop) {
    WireShape(l) && OneTerminal(l) && PongsEcho(l)
  }

  lemma PingKeepsShape(l: Loop, payload: Payload, written: bool)
    requires !l.done && WellShaped(l)
    ensures WellShaped(l.(frames := if written then l.frames + [PongFrame(payload)] else l.frames,
                          pings := l.pings + [(payload, written)]))
  {
    var l' := l.(frames := if written then l.frames + [PongFrame(payload)] else l.frames,
                 pings := l.pings + [(payload, written)]);
    var sent: nat :| WireShapeAt(l, sent);
    FrameAppended(l.frames, PongFrame(payload));
    assert l'.pings[..|l.pings|] == l.pings;
    assert l.consumed[..sent] == l.consumed;
    assert WireShapeAt(l', sent);
  }

  lemma CompletionKeepsShape(l: Loop, data: string, written: bool)
    requires !l.done && WellShaped(l)
    ensures WellShaped(Leave(if written then l.(frames := l.frames + [CloseFrame]) else l, Completed(data)))
  {
    var l' := Leave(if written then l.(frames := l.frames + [CloseFrame]) else l, Completed(data));
    var sent: nat :| WireShapeAt(l, sent);
    FrameAppended(l.frames, CloseFrame);
    assert l.consumed[..sent] == l.consumed;
    assert WireShapeAt(l', sent);
  }

  lemma FailureKeepsShape(l: Loop, message: string)
    requires !l.done && WellShaped(l)
    ensures WellShaped(Leave(l, Failed(message)))
  {
    var sent: nat :| WireShapeAt(l, sent);
    assert l.consumed[..sent] == l.consumed;
    assert WireShapeAt(Leave(l, Failed(message)), sent);
  }

  lemma InboundKeepsShape(l: Loop, inbound: Inbound, write: WriteResult)
    requires !l.done && WellShaped(l)
    ensures WellShaped(OnInbound(l, inbound, write))
  {
    match inbound {
      case TextFrame(Ok(CompletedMessage(data))) => CompletionKeepsShape(l, data, write.Written?);
      case TextFrame(Ok(ErrorMessage(message, _))) => FailureKeepsShape(l, message);
      case TextFrame(_) =>
      case PingFrame(payload) => PingKeepsShape(l, payload, write.Written?);
      case ClosedByPeer(reason) =>
        FailureKeepsShape(l, "backend closed connection: " + if reason.Some? then reason.value else "");
      case IgnoredFrame =>
      case SocketError(error) => FailureKeepsShape(l, "backend websocket error: " + error);
      case StreamEnd => FailureKeepsShape(l, "backend websocket closed unexpectedly");
    }
  }

  /** The wire log, the pongs and the terminal status, for every environment. */
  lemma {:induction false} EveryRunIsWellShaped(turns: seq<Turn>)
    ensures WellShaped(Run(turns))
  {
    if turns == [] {
      assert WireShapeAt(FRESH_LOOP, 0);
    } else {
      var l, t := Run(turns[..|turns| - 1]), turns[|turns| - 1];
      EveryRunIsWellShaped(turns[..|turns| - 1]);
      if !l.done {
        if TakesCommand(l, t) {
          CommandKeepsShape(l, t.received, t.write);
        } else {
          InboundKeepsShape(l, t.inbound, t.write);
        }
      }
    }
  }
}
