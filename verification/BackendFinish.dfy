/**
 * The loop task, the bounded command queue, the latest-value status channel and `finish`, interleaved
 * freely. Receiving, publishing a status and writing to the socket are separate steps of the loop; its
 * end drops its two channel ends at once.
 */
module BackendFinish {
  import opened Wrappers
  import opened BackendLoop
  import Handshake

  const COMMAND_BUFFER := 256

  datatype FinishError = EndNotSent | ClosedUnexpectedly | RunFailed(message: string)

  datatype Finish =
    | NotCalled
    | Sending
    | Waiting(seen: nat)
    | Reading(seen: nat)
    | Returned(result: Result<string, FinishError>)

  /**
   * Where the loop is within a turn: at its select; handling what it received; or past the status that
   * ends it. Its write goes with the end of the turn, and leaves a frame only if it succeeds: a failed
   * write comes before the status that reports it, the close frame after the completed status.
   */
  datatype Phase =
    | AtSelect
    | Handling(turn: Turn)
    | Published(turn: Turn)

  /**
   * `turns` are the finished turns. `dropped`: the loop task has ended, taking its status sender and
   * command receiver with it.
   * `clones` counts live signature senders; `handle` is the one `finish` consumes. `accepted`
   * records every command the queue took.
   */
  datatype System = System(
    turns: seq<Turn>, phase: Phase, queue: seq<Command>, accepted: seq<Command>, dropped: bool,
    version: nat, status: Status, clones: nat, handle: bool, finish: Finish)

  datatype Step =
    | Receive(turn: Turn)
    | Publish
    | EndTurn
    | LoopDrops
    | MakeClone
    | DropClone
    | PushSignature(envelope: Envelope)
    | DropHandle
    | CallFinish
    | PushEnd
    | PushEndFails
    | SeeChange
    | SeeClosed
    | Borrow

  /** The loop with the turn it is in carried through. */
  function Ahead(s: System): Loop {
    if s.phase.AtSelect? then Run(s.turns) else Iterate(Run(s.turns), s.phase.turn)
  }

  predicate Enabled(s: System, step: Step) {
    match step
    case Receive(t) =>
      && !s.dropped && s.phase.AtSelect? && !Run(s.turns).done
      && (TakesCommand(Run(s.turns), t) ==>
            if s.queue != [] then t.received == Some(s.queue[0])
            else t.received == None && !s.handle && s.clones == 0)
    case Publish => s.phase.Handling? && Ahead(s).done
    case EndTurn => (s.phase.Handling? && !Ahead(s).done) || s.phase.Published?
    case LoopDrops => s.phase.AtSelect? && Run(s.turns).done && !s.dropped
    case MakeClone => (s.handle && s.finish.NotCalled?) || s.clones > 0
    case DropClone => s.clones > 0
    case PushSignature(_) => s.clones > 0 && |s.queue| < COMMAND_BUFFER && !s.dropped
    case DropHandle => s.handle && s.finish.NotCalled?
    case CallFinish => s.handle && s.finish.NotCalled?
    case PushEnd => s.finish.Sending? && |s.queue| < COMMAND_BUFFER && !s.dropped
    case PushEndFails => s.finish.Sending? && s.dropped
    case SeeChange => s.finish.Waiting? && s.finish.seen != s.version
    case SeeClosed => s.finish.Waiting? && s.finish.seen == s.version && s.dropped
    case Borrow => s.finish.Reading?
  }

  function Return(s: System, result: Result<string, FinishError>): System {
    s.(finish := Returned(result), handle := false)
  }

  /** The terminal status of a loop that has one. */
  function LastStatus(l: Loop, otherwise: Status): Status {
    if l.statuses == [] then otherwise else l.statuses[|l.statuses| - 1]
  }

  function Do(s: System, step: Step): System
    requires Enabled(s, step)
  {
    match step
    case Receive(t) =>
      s.(phase := Handling(t),
         queue := if TakesCommand(Run(s.turns), t) && s.queue != [] then s.queue[1..] else s.queue)
    case Publish =>
      s.(phase := Published(s.phase.turn), version := s.version + 1, status := LastStatus(Ahead(s), s.status))
    case EndTurn => s.(turns := s.turns + [s.phase.turn], phase := AtSelect)
    case LoopDrops => s.(dropped := true)
    case MakeClone => s.(clones := s.clones + 1)
    case DropClone => s.(clones := s.clones - 1)
    case PushSignature(e) => s.(queue := s.queue + [Signature(e)], accepted := s.accepted + [Signature(e)])
    case DropHandle => s.(handle := false)
    case CallFinish => s.(finish := Sending)
    case PushEnd => s.(queue := s.queue + [End], accepted := s.accepted + [End], finish := Waiting(0))
    case PushEndFails => Return(s, Err(EndNotSent))
    case SeeChange => s.(finish := Reading(s.version))
    case SeeClosed => Return(s, Err(ClosedUnexpectedly))
    case Borrow =>
      match s.status
      case Completed(response) => Return(s, Ok(response))
      case Failed(message) => Return(s, Err(RunFailed(message)))
      case _ => s.(finish := Waiting(s.finish.seen))
  }

  /**
   * After the handshake: `Ready` is the second value of the status channel, and the handle has seen none
   * but the first.
   */
  predicate Initial(s: System) {
    && s.turns == [] && s.phase == AtSelect && s.queue == [] && s.accepted == [] && !s.dropped
    && s.version == 1 && s.status.Ready? && s.clones == 0 && s.handle && s.finish == NotCalled
  }

  datatype ConnectError = StartNotSent(error: string) | HandshakeFailed(cause: Handshake.HandshakeError)

  /**
   * `connect_stream` from the start message on. `statuses` are the values the status channel is given:
   * it is made `Initializing`, and `Ready` follows only an acknowledgement with an acceptable nonce.
   */
  method ConnectStream(startWrite: WriteResult, incoming: seq<Inbound>, writes: nat -> WriteResult,
                       clock: nat -> real, sentMs: real)
    returns (r: Result<System, ConnectError>, statuses: seq<Status>, nonce: seq<nat>, decided: nat)
    ensures decided <= |incoming|
    ensures r.Ok? <==> startWrite.Written? && decided < |incoming| && Handshake.IsAck(incoming[decided])
                       && Handshake.Accepted(incoming[decided].parsed.value.sessionNonce)
    ensures statuses == [Initializing] + if r.Ok? then [Ready(incoming[decided].parsed.value.ackRunId)] else []
    ensures r.Ok? ==> Initial(r.value) && r.value.status == statuses[1] && |nonce| == 32
    ensures r.Ok? ==> Handshake.HexDecode(Handshake.Trim(incoming[decided].parsed.value.sessionNonce)) == Some(nonce)
    ensures startWrite.Written? ==> forall i :: 0 <= i < decided ==> Handshake.PassedOver(incoming[i], writes(i))
    ensures startWrite.Written? && decided < |incoming| ==> !Handshake.PassedOver(incoming[decided], writes(decided))
    ensures !startWrite.Written? ==> r == Err(StartNotSent(startWrite.error))
    ensures startWrite.Written? && r.Err? ==>
              r.error.HandshakeFailed? && Handshake.RefusedAs(incoming, decided, r.error.cause)
  {
    statuses := [Initializing];
    if !startWrite.Written? {
      return Err(StartNotSent(startWrite.error)), statuses, [], 0;
    }
    var ack, pongs, d := Handshake.WaitForStartAck(incoming, writes, clock, sentMs);
    if ack.Err? {
      return Err(HandshakeFailed(ack.error)), statuses, [], d;
    }
    statuses := statuses + [Ready(ack.value.runId)];
    var connected := System([], AtSelect, [], [], false, 1, Ready(ack.value.runId), 0, true, NotCalled);
    return Ok(connected), statuses, ack.value.nonce, d;
  }

  ghost predicate Next(s: System, s': System) {
    exists step :: Enabled(s, step) && s' == Do(s, step)
  }

  ghost predicate IsRun(run: seq<System>) {
    run != [] && Initial(run[0]) && forall i :: 0 <= i < |run| - 1 ==> Next(run[i], run[i + 1])
  }

  /** What `finish` makes of the loop's one terminal status. */
  ghost predicate IsOutcome(r: Result<string, FinishError>, l: Loop) {
    && l.done && |l.statuses| == 1
    && (|| (r.Ok? && l.statuses[0] == Completed(r.value))
        || (r.Err? && r.error.RunFailed? && l.statuses[0] == Failed(r.error.message)))
  }

  /** The terminal status has been written to the channel. */
  predicate Announced(s: System) {
    s.phase.Published? || (s.phase.AtSelect? && Run(s.turns).done)
  }

  /** The status channel holds the loop's terminal status once it is written, and `Ready` until then. */
  ghost predicate StatusOk(s: System, l: Loop) {
    && OneTerminal(l)
    && (Announced(s) ==> l.done)
    && s.version == (if Announced(s) then 2 else 1)
    && (if Announced(s) then s.status == l.statuses[0] else s.status.Ready?)
    && (s.dropped ==> Announced(s) && s.phase.AtSelect?)
  }

  ghost predicate FinishOk(s: System, l: Loop) {
    match s.finish
    case NotCalled => true
    case Sending => s.handle
    case Waiting(seen) => seen <= 1 && s.handle && End in s.accepted
    case Reading(seen) => seen <= s.version && (seen > 1 ==> Announced(s)) && s.handle && End in s.accepted
    case Returned(Err(EndNotSent)) => Announced(s)
    case Returned(r) => Announced(s) && IsOutcome(r, l) && End in s.accepted
  }

  ghost predicate QueueOk(s: System, l: Loop) {
    && s.accepted == l.consumed + s.queue
    && |s.queue| <= COMMAND_BUFFER
    && (End in s.accepted ==> !s.finish.NotCalled? && !s.finish.Sending? && s.finish != Returned(Err(EndNotSent)))
  }

  ghost predicate Inv(s: System) {
    && StatusOk(s, Ahead(s)) && FinishOk(s, Ahead(s)) && QueueOk(s, Ahead(s))
    && (!s.phase.AtSelect? ==> !Run(s.turns).done)
  }

  lemma IterateConsumes(l: Loop, t: Turn)
    requires !l.done
    ensures var l' := Iterate(l, t);
            && (TakesCommand(l, t) && t.received.Some? ==> l'.consumed == l.consumed + [t.received.value])
            && (!(TakesCommand(l, t) && t.received.Some?) ==> l'.consumed == l.consumed)
  {
  }

  lemma HeadConsumed(consumed: seq<Command>, queue: seq<Command>)
    requires queue != []
    ensures consumed + queue == (consumed + [queue[0]]) + queue[1..]
  {
  }

  lemma TurnAppended(turns: seq<Turn>, t: Turn)
    ensures Run(turns + [t]) == Iterate(Run(turns), t)
  {
    assert (turns + [t])[..|turns|] == turns;
  }

  lemma ReceiveKeepsQueue(s: System, t: Turn, l: Loop, l': Loop)
    requires QueueOk(s, l) && l == Run(s.turns) && Enabled(s, Receive(t))
    requires l'.consumed ==
             if TakesCommand(l, t) && t.received.Some? then l.consumed + [t.received.value] else l.consumed
    ensures QueueOk(Do(s, Receive(t)), l')
  {
    if s.queue != [] {
      HeadConsumed(l.consumed, s.queue);
    }
  }

  lemma ReceiveKeepsInvariant(s: System, t: Turn)
    requires Inv(s) && Enabled(s, Receive(t))
    ensures Inv(Do(s, Receive(t)))
  {
    var l := Run(s.turns);
    TurnAppended(s.turns, t);
    EveryRunIsWellShaped(s.turns + [t]);
    IterateConsumes(l, t);
    ReceiveKeepsQueue(s, t, l, Iterate(l, t));
  }

  lemma PublishKeepsInvariant(s: System)
    requires Inv(s) && Enabled(s, Publish)
    ensures Inv(Do(s, Publish))
  {
    assert Ahead(Do(s, Publish)) == Ahead(s);
  }

  lemma EndTurnKeepsInvariant(s: System)
    requires Inv(s) && Enabled(s, EndTurn)
    ensures Inv(Do(s, EndTurn))
  {
    TurnAppended(s.turns, s.phase.turn);
    assert Ahead(Do(s, EndTurn)) == Ahead(s);
    assert Announced(Do(s, EndTurn)) == Announced(s);
  }

  lemma PushKeepsInvariant(s: System, step: Step)
    requires Inv(s) && Enabled(s, step) && (step.PushSignature? || step.PushEnd?)
    ensures Inv(Do(s, step))
  {
    var l := Ahead(s);
    assert Ahead(Do(s, step)) == l;
    match step {
      case PushSignature(e) => assert l.consumed + (s.queue + [Signature(e)]) == s.accepted + [Signature(e)];
      case PushEnd => assert l.consumed + (s.queue + [End]) == s.accepted + [End];
    }
  }

  predicate OwnStep(step: Step) {
    step.CallFinish? || step.PushEndFails? || step.SeeChange? || step.SeeClosed? || step.Borrow?
  }

  lemma FinishKeepsInvariant(s: System, step: Step)
    requires Inv(s) && Enabled(s, step) && OwnStep(step)
    ensures Inv(Do(s, step))
  {
    assert Ahead(Do(s, step)) == Ahead(s) && Announced(Do(s, step)) == Announced(s);
  }

  lemma HandleKeepsInvariant(s: System, step: Step)
    requires Inv(s) && Enabled(s, step) && (step.LoopDrops? || step.MakeClone? || step.DropClone? || step.DropHandle?)
    ensures Inv(Do(s, step))
  {
    assert Ahead(Do(s, step)) == Ahead(s) && Announced(Do(s, step)) == Announced(s);
  }

  lemma StepKeepsInvariant(s: System, step: Step)
    requires Inv(s) && Enabled(s, step)
    ensures Inv(Do(s, step))
  {
    match step {
      case Receive(t) => ReceiveKeepsInvariant(s, t);
      case Publish => PublishKeepsInvariant(s);
      case EndTurn => EndTurnKeepsInvariant(s);
      case PushSignature(_) => PushKeepsInvariant(s, step);
      case PushEnd => PushKeepsInvariant(s, step);
      case _ =>
        if OwnStep(step) {
          FinishKeepsInvariant(s, step);
        } else {
          HandleKeepsInvariant(s, step);
        }
    }
  }

  lemma NextKeepsInvariant(s: System, s': System)
    requires Inv(s) && Next(s, s')
    ensures Inv(s')
  {
    var step :| Enabled(s, step) && s' == Do(s, step);
    StepKeepsInvariant(s, step);
  }

  lemma {:induction false} RunKeepsInvariant(run: seq<System>, n: nat)
    requires IsRun(run) && n < |run|
    ensures Inv(run[n])
  {
    if n > 0 {
      RunKeepsInvariant(run, n - 1);
      NextKeepsInvariant(run[n - 1], run[n - 1 + 1]);
    }
  }

  /** The turns so far, the one being handled included. */
  function TurnsOf(s: System): seq<Turn> {
    if s.phase.AtSelect? then s.turns else s.turns + [s.phase.turn]
  }

  /** `finish` tells what ended the loop at turn `k`: the completed message's data, or the failure's text. */
  ghost predicate TellsTurn(r: Result<string, FinishError>, turns: seq<Turn>, k: nat) {
    && LeavesAt(turns, k)
    && (forall data :: r == Ok(data) <==> CompletedBy(turns, k, data))
    && (forall message :: r == Err(RunFailed(message)) <==> FailedBy(turns, k, message))
  }

  lemma OutcomeTold(s: System, r: Result<string, FinishError>) returns (k: nat)
    requires IsOutcome(r, Ahead(s))
    ensures TellsTurn(r, TurnsOf(s), k)
  {
    var turns, l := TurnsOf(s), Ahead(s);
    if !s.phase.AtSelect? {
      TurnAppended(s.turns, s.phase.turn);
    }
    LoopAsTold(turns);
    k :| LeavesAt(turns, k) && ReportedAs(turns, k, l.statuses[0]);
    forall data ensures r == Ok(data) <==> CompletedBy(turns, k, data) {
      StatusExactly(turns, k, Completed(data));
    }
    forall message ensures r == Err(RunFailed(message)) <==> FailedBy(turns, k, message) {
      StatusExactly(turns, k, Failed(message));
    }
  }

  /**
   * Whatever `finish` returns once the queue has taken `End` is the loop's one terminal status, even
   * when the loop has still to write its close frame: never "closed unexpectedly", and `Ok(data)` exactly
   * when the turn that ended the loop brought the backend's completed message with `data`. It fails to
   * send only after that status.
   */
  lemma FinishReturnsTheOutcome(run: seq<System>, n: nat)
    requires IsRun(run) && n < |run| && run[n].finish.Returned?
    ensures var l, r := Ahead(run[n]), run[n].finish.result;
            && Announced(run[n]) && |l.statuses| == 1 && l.statuses[0].Terminal() && run[n].status == l.statuses[0]
            && r != Err(ClosedUnexpectedly)
            && (r == Err(EndNotSent) <==> End !in run[n].accepted)
            && (r != Err(EndNotSent) ==> IsOutcome(r, l) && exists k: nat :: TellsTurn(r, TurnsOf(run[n]), k))
  {
    RunKeepsInvariant(run, n);
    if run[n].finish.result != Err(EndNotSent) {
      var k := OutcomeTold(run[n], run[n].finish.result);
    }
  }

  /** How many of its own steps `finish` still needs once the loop has left its terminal status. */
  function StepsLeft(f: Finish): nat {
    match f
    case Waiting(_) => 2
    case Reading(_) => 1
    case _ => 0
  }

  predicate FinishMoves(step: Step) {
    step.SeeChange? || step.SeeClosed? || step.Borrow?
  }

  /**
   * `finish` cannot be kept waiting once the terminal status is out: it always has a step to take, each
   * of its steps brings it closer, nobody else's step sets it back, and what it ends with is the outcome.
   */
  lemma FinishIsNeverStuck(run: seq<System>, n: nat, step: Step)
    requires IsRun(run) && n < |run| && run[n].status.Terminal()
    requires run[n].finish.Waiting? || run[n].finish.Reading?
    ensures Enabled(run[n], if run[n].finish.Waiting? then SeeChange else Borrow)
    ensures Enabled(run[n], step) ==>
              var s' := Do(run[n], step);
              && s'.status == run[n].status
              && StepsLeft(s'.finish) == StepsLeft(run[n].finish) - (if FinishMoves(step) then 1 else 0)
              && (s'.finish.Returned? ==> IsOutcome(s'.finish.result, Ahead(run[n])))
  {
    RunKeepsInvariant(run, n);
    if Enabled(run[n], step) {
      StatusIsFinal(run[n], step);
    }
  }

  /** Nobody writes over the terminal status. */
  lemma StatusIsFinal(s: System, step: Step)
    requires Inv(s) && Announced(s) && Enabled(s, step)
    ensures Do(s, step).status == s.status && Do(s, step).version == s.version
  {
  }

  /**
   * The wire against the queue: the data frames on the wire carry a prefix of the accepted commands,
   * in the order the queue took them.
   */
  lemma WireFollowsQueue(run: seq<System>, n: nat)
    requires IsRun(run) && n < |run|
    ensures WireShape(Run(run[n].turns))
    ensures exists sent: nat :: sent <= |run[n].accepted| && WirePrefix(Run(run[n].turns), run[n].accepted, sent)
  {
    RunKeepsInvariant(run, n);
    var l := Run(run[n].turns);
    EveryRunIsWellShaped(run[n].turns);
    if !run[n].phase.AtSelect? {
      IterateConsumes(l, run[n].phase.turn);
    }
    var sent: nat :| WireShapeAt(l, sent);
    assert l.consumed[..sent] == run[n].accepted[..sent];
    assert WirePrefix(l, run[n].accepted, sent);
  }

  ghost predicate WirePrefix(l: Loop, accepted: seq<Command>, sent: nat) {
    && sent <= |accepted|
    && (|| DataFrames(l.frames) == FramesFor(accepted[..sent])
        || DataFrames(l.frames) == FramesFor(accepted[..sent]) + [CloseFrame])
  }

  // ----- a run that completes -----

  lemma ExtendRun(run: seq<System>, step: Step) returns (longer: seq<System>)
    requires IsRun(run) && Enabled(run[|run| - 1], step)
    ensures longer == run + [Do(run[|run| - 1], step)] && IsRun(longer)
  {
    var last := run[|run| - 1];
    longer := run + [Do(last, step)];
    assert Next(last, Do(last, step));
    forall i | 0 <= i < |longer| - 1 ensures Next(longer[i], longer[i + 1]) {
      if i < |run| - 1 {
        assert Next(run[i], run[i + 1]);
      }
    }
  }

  /** The loop takes the command at the head of the queue and writes it. */
  lemma CommandInRun(run: seq<System>, c: Command) returns (longer: seq<System>)
    requires IsRun(run)
    requires var s := run[|run| - 1];
             && s.phase.AtSelect? && !s.dropped && s.queue != [] && s.queue[0] == c
             && !Run(s.turns).done && !Run(s.turns).awaiting
    ensures IsRun(longer)
    ensures var s, s' := run[|run| - 1], longer[|longer| - 1];
            && Run(s'.turns) == OnCommand(Run(s.turns), Some(c), Written)
            && s' == s.(turns := s'.turns, queue := s.queue[1..])
  {
    var s, t := run[|run| - 1], Turn(true, Some(c), IgnoredFrame, Written);
    TurnAppended(s.turns, t);
    longer := ExtendRun(run, Receive(t));
    longer := ExtendRun(longer, EndTurn);
  }

  /** A signature and the end command queued, with `finish` waiting. */
  lemma TwoQueued(runId: string, envelope: Envelope) returns (run: seq<System>)
    ensures IsRun(run)
    ensures var c := [Signature(envelope), End];
            run[|run| - 1] == System([], AtSelect, c, c, false, 1, Ready(runId), 1, true, Waiting(0))
  {
    run := [System([], AtSelect, [], [], false, 1, Ready(runId), 0, true, NotCalled)];
    run := ExtendRun(run, MakeClone);
    run := ExtendRun(run, PushSignature(envelope));
    run := ExtendRun(run, CallFinish);
    run := ExtendRun(run, PushEnd);
  }

  /**
   * `finish` comes to completion in some run, whatever the signature and the data: the signature and the
   * end are on the wire, and the loop has still to write its close frame.
   */
  lemma FinishCanComplete(runId: string, envelope: Envelope, data: string) returns (run: seq<System>)
    ensures IsRun(run)
    ensures var s := run[|run| - 1];
            && s.finish == Returned(Ok(data)) && s.phase.Published?
            && Run(s.turns).frames == [SignatureFrame(envelope), EndFrame]
  {
    run := TwoQueued(runId, envelope);
    run := CommandInRun(run, Signature(envelope));
    run := CommandInRun(run, End);
    run := ExtendRun(run, Receive(Turn(false, None, TextFrame(Ok(CompletedMessage(data))), Written)));
    run := ExtendRun(run, Publish);
    run := ExtendRun(run, SeeChange);
    run := ExtendRun(run, Borrow);
  }
}
