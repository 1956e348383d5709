/**
 * The round driver, its senders and the observer interleave on the book. In each round every endpoint
 * has one sending task; a sender that has registered waits on its own channel and on its round's, may
 * time out at any moment, and is awaited before the next round starts.
 */
module WakeUp {
  import opened Wrappers
  import opened Ledger
  import opened LedgerLog
  import NonceRounds

  datatype Outcome = SelfLanded | OtherLanded | Dropped | TimedOut

  datatype Sender = Sender(signature: string, round: string, registeredAt: nat,
                           ack: nat, channel: nat, seen: nat, outcome: Option<Outcome>)

  /**
   * `ids` are the rounds the driver will run, `started` how many of them have begun; `todo` holds the
   * endpoints whose task has neither registered a send nor given up in the present round. A task draws
   * a number from the process-wide `counter` for its payload; `drawn` are the numbers of tasks yet to
   * register, `used` those of the senders. No number is drawn twice, so the signature of the transaction
   * it goes into is a function of it.
   */
  datatype System = System(endpoints: seq<string>, ids: seq<string>, signatureOf: nat -> string,
                           started: nat, todo: set<nat>, counter: nat, drawn: map<nat, nat>, used: seq<nat>,
                           log: seq<Event>, book: Book, senders: seq<Sender>)

  datatype Step =
    | BeginRound
    | Draw(endpoint: nat)
    | Send(endpoint: nat, sentElapsed: nat)
    | GiveUp(endpoint: nat)
    | Observe(seen: Observation)
    | Wake(sender: nat, outcome: Outcome)

  /** `ids` may be any that `NonceRounds.RunRounds` comes to. */
  ghost predicate Initial(s: System) {
    && NonceRounds.NeighboursDiffer(s.ids) && s.started == 0 && s.todo == {}
    && s.counter == 0 && s.drawn == map[] && s.used == []
    && s.log == [] && s.book == EMPTY_BOOK && s.senders == []
  }

  /** `_ = ack` accepts the value and the closed channel alike. */
  predicate AckReady(b: Book, s: Sender)
    requires s.ack < |b.oneshots|
  {
    b.oneshots[s.ack] != Pending
  }

  /** `changed()` looks at the version first and only then at whether a sender is left. */
  predicate RoundReady(b: Book, s: Sender)
    requires s.channel < |b.watches|
  {
    b.watches[s.channel].version != s.seen
  }

  predicate RoundLost(b: Book, s: Sender)
    requires s.channel < |b.watches|
  {
    !RoundReady(b, s) && !b.watches[s.channel].open
  }

  /** Every task of the present round has given up or registered, and every registered sender has stopped waiting. */
  predicate RoundOver(s: System) {
    s.todo == {} && forall i :: 0 <= i < |s.senders| ==> s.senders[i].outcome.Some?
  }

  ghost predicate Enabled(s: System, step: Step) {
    match step
    case BeginRound => s.book.WellFormed() && s.started < |s.ids| && RoundOver(s)
    case Draw(endpoint) => endpoint in s.todo && endpoint !in s.drawn
    case Send(endpoint, _) =>
      && s.book.WellFormed() && endpoint in s.todo && endpoint in s.drawn
      && endpoint < |s.endpoints| && 0 < s.started <= |s.ids|
    case GiveUp(endpoint) => endpoint in s.todo
    case Observe(_) => s.book.WellFormed()
    case Wake(i, o) =>
      && i < |s.senders| && s.senders[i].outcome == None
      && s.senders[i].ack < |s.book.oneshots| && s.senders[i].channel < |s.book.watches|
      && (match o
          case SelfLanded => AckReady(s.book, s.senders[i])
          case OtherLanded => RoundReady(s.book, s.senders[i])
          case Dropped => RoundLost(s.book, s.senders[i])
          case TimedOut => true)
  }

  /** The two channels `record_send` hands back, subscribed at the round channel's present version. */
  function NewSender(at: nat, b: Book, signature: string, record: SendRecord): Sender
    requires b.WellFormed()
  {
    var b' := RecordSend(b, signature, record);
    var channel := b'.roundNotifiers[record.round];
    Sender(signature, record.round, at, b'.waiters[signature], channel, b'.watches[channel].version, None)
  }

  /** A locked call on the book. */
  function Call(s: System, e: Event): System
    requires s.book.WellFormed()
  {
    s.(log := s.log + [e], book := Apply(s.book, e))
  }

  /** The endpoints by number, one task each. */
  function Upto(n: nat): (r: set<nat>)
    ensures |r| == n && forall i: nat :: i in r <==> i < n
  {
    if n == 0 then {} else Upto(n - 1) + {n - 1}
  }

  function Do(s: System, step: Step): System
    requires Enabled(s, step)
  {
    match step
    case BeginRound =>
      Call(s, Started(s.ids[s.started])).(started := s.started + 1, todo := Upto(|s.endpoints|))
    case Draw(endpoint) => s.(counter := s.counter + 1, drawn := s.drawn[endpoint := s.counter])
    case Send(endpoint, sentElapsed) =>
      var signature := s.signatureOf(s.drawn[endpoint]);
      var record := SendRecord(s.endpoints[endpoint], sentElapsed, s.ids[s.started - 1]);
      Call(s, Registered(signature, record)).(
        todo := s.todo - {endpoint}, drawn := s.drawn - {endpoint}, used := s.used + [s.drawn[endpoint]],
        senders := s.senders + [NewSender(|s.log|, s.book, signature, record)])
    case GiveUp(endpoint) => s.(todo := s.todo - {endpoint}, drawn := s.drawn - {endpoint})
    case Observe(obs) => Call(s, Observed(obs))
    case Wake(i, o) => s.(senders := s.senders[i := s.senders[i].(outcome := Some(o))])
  }

  ghost predicate Next(s: System, s': System) {
    exists step :: Enabled(s, step) && s' == Do(s, step)
  }

  ghost predicate IsRun(run: seq<System>) {
    run != [] && Initial(run[0]) && forall i :: 0 <= i < |run| - 1 ==> Next(run[i], run[i + 1])
  }

  // ----- what the log says -----

  ghost predicate CreditsSignature(log: seq<Event>, j: nat, signature: string)
    requires j < |log|
  {
    CreditAt(log, j).Some? && CreditAt(log, j).value.signature == signature
  }

  ghost predicate CreditsRound(log: seq<Event>, j: nat, round: string)
    requires j < |log|
  {
    CreditAt(log, j).Some? && CreditAt(log, j).value.round == round
  }

  ghost predicate SignatureCredited(log: seq<Event>, signature: string) {
    exists j :: 0 <= j < |log| && CreditsSignature(log, j, signature)
  }

  ghost predicate RoundCreditedSince(log: seq<Event>, round: string, since: nat) {
    exists j :: since < j < |log| && CreditsRound(log, j, round)
  }

  lemma RoundCreditedStep(log: seq<Event>, e: Event, round: string, since: nat)
    requires since < |log|
    ensures RoundCreditedSince(log + [e], round, since)
       <==> RoundCreditedSince(log, round, since) || CreditsRound(log + [e], |log|, round)
  {
    forall j | 0 <= j < |log| ensures CreditsRound(log + [e], j, round) == CreditsRound(log, j, round) {
      CreditAtStable(log, [e], j);
    }
  }

  predicate Registers(e: Event, signature: string) {
    e.Registered? && e.signature == signature
  }

  /**
   * What has become of the own channel of the sender registered at `since`: the first event after it
   * that credits its signature or registers it again decides.
   */
  ghost function ChannelAfter(log: seq<Event>, since: nat, signature: string): Oneshot
    requires since < |log|
    decreases |log|
  {
    if since == |log| - 1 then Pending
    else
      var before := ChannelAfter(log[..|log| - 1], since, signature);
      if before != Pending then before
      else if CreditsSignature(log, |log| - 1, signature) then Fired
      else if Registers(log[|log| - 1], signature) then SenderDropped
      else Pending
  }

  lemma ChannelStep(log: seq<Event>, e: Event, since: nat, signature: string)
    requires since < |log|
    ensures ChannelAfter(log + [e], since, signature) ==
            if ChannelAfter(log, since, signature) != Pending then ChannelAfter(log, since, signature)
            else if CreditsSignature(log + [e], |log|, signature) then Fired
            else if Registers(e, signature) then SenderDropped
            else Pending
  {
    assert (log + [e])[..|log|] == log;
  }

  /** Event `j` credits the signature, and nothing has registered it again since `since`. */
  ghost predicate CreditsFirst(log: seq<Event>, since: nat, signature: string, j: nat) {
    && since < j < |log| && CreditsSignature(log, j, signature)
    && forall k :: since < k < j ==> !Registers(log[k], signature)
  }

  /** Event `j` registers the signature again, and nothing has credited it since `since`. */
  ghost predicate Replaces(log: seq<Event>, since: nat, signature: string, j: nat) {
    && since < j < |log| && Registers(log[j], signature)
    && forall k :: since < k < j ==> !CreditsSignature(log, k, signature)
  }

  /** The send registered at `since` earned a credit. */
  ghost predicate OwnCredit(log: seq<Event>, since: nat, signature: string) {
    exists j: nat :: CreditsFirst(log, since, signature, j)
  }

  /** The signature was registered again before it was credited. */
  ghost predicate Replaced(log: seq<Event>, since: nat, signature: string) {
    exists j: nat :: Replaces(log, since, signature, j)
  }

  /** Event `k` neither credits the signature nor registers it. */
  ghost predicate LeavesAlone(log: seq<Event>, k: nat, signature: string)
    requires k < |log|
  {
    !CreditsSignature(log, k, signature) && !Registers(log[k], signature)
  }

  /** The event that decides the channel, or the end of the log when none has yet. */
  lemma {:induction false} DecidingEvent(log: seq<Event>, since: nat, signature: string) returns (j: nat)
    requires since < |log|
    ensures since < j <= |log| && forall k :: since < k < j ==> LeavesAlone(log, k, signature)
    ensures match ChannelAfter(log, since, signature)
            case Pending => j == |log|
            case Fired => j < |log| && CreditsSignature(log, j, signature)
            case SenderDropped => j < |log| && Registers(log[j], signature)
  {
    j := |log|;
    if since < |log| - 1 {
      var init, last := log[..|log| - 1], log[|log| - 1];
      assert log == init + [last];
      j := DecidingEvent(init, since, signature);
      ChannelStep(init, last, since, signature);
      forall k | 0 <= k < |init| ensures CreditsSignature(log, k, signature) == CreditsSignature(init, k, signature) {
        CreditAtStable(init, [last], k);
      }
      forall k | since < k < j ensures LeavesAlone(log, k, signature) {
        assert LeavesAlone(init, k, signature);
      }
      if j == |init| && LeavesAlone(log, j, signature) {
        j := |log|;
      }
    }
  }

  /** The channel has fired exactly on an own credit, and lost its sender exactly on a repeated registration. */
  lemma ChannelMeans(log: seq<Event>, since: nat, signature: string)
    requires since < |log|
    ensures ChannelAfter(log, since, signature) == Fired <==> OwnCredit(log, since, signature)
    ensures ChannelAfter(log, since, signature) == SenderDropped <==> Replaced(log, since, signature)
  {
    var j := DecidingEvent(log, since, signature);
    forall k | since < k < j ensures !Registers(log[k], signature) && !CreditsSignature(log, k, signature) {
      assert LeavesAlone(log, k, signature);
    }
    assert ChannelAfter(log, since, signature) == Fired ==> CreditsFirst(log, since, signature, j);
    assert ChannelAfter(log, since, signature) == SenderDropped ==> Replaces(log, since, signature, j);
    if OwnCredit(log, since, signature) {
      var i: nat :| CreditsFirst(log, since, signature, i);
      assert j <= i;
    }
    if Replaced(log, since, signature) {
      var i: nat :| Replaces(log, since, signature, i);
      assert j <= i;
    }
  }

  /** A signature registered once is never replaced, and every credit of it is its sender's own. */
  lemma UniqueMeansOwn(log: seq<Event>, since: nat, signature: string)
    requires UniqueSignatures(log) && since < |log| && Registers(log[since], signature)
    ensures !Replaced(log, since, signature)
    ensures OwnCredit(log, since, signature) <==> SignatureCredited(log, signature)
  {
    if SignatureCredited(log, signature) {
      var j :| 0 <= j < |log| && CreditsSignature(log, j, signature);
      CreditedExactlyOnFirstObservation(log, since, j);
      assert CreditsFirst(log, since, signature, j);
    }
  }

  // ----- the invariant -----

  ghost predicate AckMatches(log: seq<Event>, b: Book, s: Sender) {
    && s.registeredAt < |log| && s.ack < |b.oneshots|
    && b.oneshots[s.ack] == ChannelAfter(log, s.registeredAt, s.signature)
    && (b.oneshots[s.ack] == Pending ==> s.signature in b.waiters && b.waiters[s.signature] == s.ack)
  }

  ghost predicate ChannelMatches(log: seq<Event>, b: Book, s: Sender) {
    && s.channel < |b.watches| && s.seen == 0
    && b.watches[s.channel] ==
         (if RoundCreditedSince(log, s.round, s.registeredAt) then Watch(1, true, false) else NEW_WATCH)
    && (!RoundCreditedSince(log, s.round, s.registeredAt) ==>
          s.round in b.roundNotifiers && b.roundNotifiers[s.round] == s.channel)
  }

  ghost predicate OutcomeMatches(log: seq<Event>, s: Sender) {
    && s.registeredAt < |log|
    && (s.outcome == Some(SelfLanded) ==> ChannelAfter(log, s.registeredAt, s.signature) != Pending)
    && (s.outcome == Some(OtherLanded) ==> RoundCreditedSince(log, s.round, s.registeredAt))
    && s.outcome != Some(Dropped)
  }

  ghost predicate SenderOk(log: seq<Event>, b: Book, s: Sender) {
    && s.registeredAt < |log| && log[s.registeredAt].Registered?
    && log[s.registeredAt].signature == s.signature && log[s.registeredAt].record.round == s.round
    && AckMatches(log, b, s) && ChannelMatches(log, b, s) && OutcomeMatches(log, s)
  }

  ghost predicate SendersOk(log: seq<Event>, b: Book, senders: seq<Sender>) {
    forall i :: 0 <= i < |senders| ==> SenderOk(log, b, senders[i])
  }

  ghost predicate WaitersOk(b: Book) {
    && b.WellFormed()
    && (forall s :: s in b.waiters ==> b.oneshots[b.waiters[s]] == Pending)
    && (forall s, t :: s in b.waiters && t in b.waiters && b.waiters[s] == b.waiters[t] ==> s == t)
  }

  ghost predicate NotifiersOk(b: Book) {
    && b.WellFormed()
    && (forall r :: r in b.roundNotifiers ==> b.watches[b.roundNotifiers[r]] == NEW_WATCH)
    && (forall r, q :: r in b.roundNotifiers && q in b.roundNotifiers && r != q ==>
          b.roundNotifiers[r] != b.roundNotifiers[q])
  }

  ghost predicate Inv(s: System) {
    && s.book == Replay(s.log)
    && WaitersOk(s.book) && NotifiersOk(s.book)
    && SendersOk(s.log, s.book, s.senders)
  }

  lemma NotifierKept(log: seq<Event>, b: Book, s: Sender, round: string)
    requires NotifiersOk(b) && ChannelMatches(log, b, s)
    ensures NotifiersOk(WithNotifier(b, round)) && ChannelMatches(log, WithNotifier(b, round), s)
  {
  }

  lemma SendKeepsAck(log: seq<Event>, b: Book, s: Sender, signature: string, record: SendRecord)
    requires WaitersOk(b) && AckMatches(log, b, s)
    ensures AckMatches(log + [Registered(signature, record)], RecordSend(b, signature, record), s)
  {
    ChannelStep(log, Registered(signature, record), s.registeredAt, s.signature);
  }

  lemma SendKeepsChannel(log: seq<Event>, b: Book, s: Sender, signature: string, record: SendRecord)
    requires NotifiersOk(b) && ChannelMatches(log, b, s) && s.registeredAt < |log|
    ensures ChannelMatches(log + [Registered(signature, record)], RecordSend(b, signature, record), s)
  {
    RoundCreditedStep(log, Registered(signature, record), s.round, s.registeredAt);
    NotifierKept(log, b, s, record.round);
  }

  /** A registration drops the channel of an undecided sender of its signature, and touches no other. */
  lemma SendKeepsSender(log: seq<Event>, b: Book, s: Sender, signature: string, record: SendRecord)
    requires WaitersOk(b) && NotifiersOk(b) && SenderOk(log, b, s)
    ensures SenderOk(log + [Registered(signature, record)], RecordSend(b, signature, record), s)
  {
    SendKeepsAck(log, b, s, signature, record);
    SendKeepsChannel(log, b, s, signature, record);
    ChannelStep(log, Registered(signature, record), s.registeredAt, s.signature);
    RoundCreditedStep(log, Registered(signature, record), s.round, s.registeredAt);
  }

  lemma SendKeepsWaiters(b: Book, signature: string, record: SendRecord)
    requires WaitersOk(b)
    ensures WaitersOk(RecordSend(b, signature, record))
  {
    var b', latest := RecordSend(b, signature, record), RecordSend(b, signature, record).waiters[signature];
    forall s | s in b'.waiters
      ensures b'.oneshots[b'.waiters[s]] == Pending && (b'.waiters[s] == latest ==> s == signature)
    {
      if s != signature {
        assert s in b.waiters && b.waiters[s] < |b.oneshots| <= latest;
      }
    }
  }

  lemma SendKeepsNotifiers(b: Book, signature: string, record: SendRecord)
    requires NotifiersOk(b)
    ensures NotifiersOk(RecordSend(b, signature, record))
  {
    var n := WithNotifier(b, record.round);
    assert NotifiersOk(n);
  }

  lemma SendKeepsBook(b: Book, signature: string, record: SendRecord)
    requires WaitersOk(b) && NotifiersOk(b)
    ensures WaitersOk(RecordSend(b, signature, record)) && NotifiersOk(RecordSend(b, signature, record))
  {
    SendKeepsWaiters(b, signature, record);
    SendKeepsNotifiers(b, signature, record);
  }

  lemma SendAddsSender(log: seq<Event>, b: Book, signature: string, record: SendRecord)
    requires WaitersOk(b) && NotifiersOk(b)
    ensures SenderOk(log + [Registered(signature, record)], RecordSend(b, signature, record),
                     NewSender(|log|, b, signature, record))
  {
    var log' := log + [Registered(signature, record)];
    SendKeepsBook(b, signature, record);
    assert !RoundCreditedSince(log', record.round, |log|);
  }

  lemma StartKeepsSender(log: seq<Event>, b: Book, s: Sender, round: string)
    requires WaitersOk(b) && NotifiersOk(b) && SenderOk(log, b, s)
    ensures SenderOk(log + [Started(round)], StartRound(b, round), s)
  {
    ChannelStep(log, Started(round), s.registeredAt, s.signature);
    RoundCreditedStep(log, Started(round), s.round, s.registeredAt);
    NotifierKept(log, b, s, round);
  }

  /** The part of a credited observation that reaches the channels. */
  function Fire(b: Book, signature: string, round: string): (r: Book)
    requires b.WellFormed()
    ensures r.WellFormed()
  {
    FireRound(FireWaiter(b, signature), round)
  }

  predicate SameChannels(b: Book, c: Book) {
    b.waiters == c.waiters && b.roundNotifiers == c.roundNotifiers && b.oneshots == c.oneshots && b.watches == c.watches
  }

  lemma LandingChannels(b: Book, obs: Observation)
    requires b.WellFormed()
    ensures !Credits(b, obs) ==> SameChannels(RecordLanding(b, obs), b)
    ensures Credits(b, obs) ==> SameChannels(RecordLanding(b, obs), Fire(b, obs.signature, b.sent[obs.signature].round))
  {
    if Credits(b, obs) {
      var send := b.sent[obs.signature];
      var m := MetricsOf(b, send.provider);
      var m' := ProviderMetrics(m.landed + 1, m.latenciesMs + [LatencyMs(send.sentElapsed, obs.elapsed)]);
      var counted := b.(sent := b.sent - {obs.signature}, metrics := b.metrics[send.provider := m'],
                        landedRounds := b.landedRounds + {send.round});
      assert RecordLanding(b, obs) == Fire(counted, obs.signature, send.round);
      FireSameChannels(b, counted, obs.signature, send.round);
    }
  }

  lemma FireSameChannels(b: Book, c: Book, signature: string, round: string)
    requires b.WellFormed() && c.WellFormed() && SameChannels(b, c)
    ensures SameChannels(Fire(c, signature, round), Fire(b, signature, round))
  {
    assert SameChannels(FireWaiter(c, signature), FireWaiter(b, signature));
  }

  lemma FireKeepsBook(b: Book, signature: string, round: string)
    requires WaitersOk(b) && NotifiersOk(b)
    ensures WaitersOk(Fire(b, signature, round)) && NotifiersOk(Fire(b, signature, round))
  {
  }

  lemma FireKeepsAck(log: seq<Event>, e: Event, b: Book, s: Sender, signature: string, round: string)
    requires WaitersOk(b) && AckMatches(log, b, s) && !e.Registered?
    requires forall x :: CreditsSignature(log + [e], |log|, x) <==> x == signature
    ensures AckMatches(log + [e], Fire(b, signature, round), s)
  {
    ChannelStep(log, e, s.registeredAt, s.signature);
  }

  lemma FireKeepsChannel(log: seq<Event>, e: Event, b: Book, s: Sender, signature: string, round: string)
    requires NotifiersOk(b) && ChannelMatches(log, b, s) && s.registeredAt < |log|
    requires forall x :: CreditsRound(log + [e], |log|, x) <==> x == round
    ensures ChannelMatches(log + [e], Fire(b, signature, round), s)
  {
    RoundCreditedStep(log, e, s.round, s.registeredAt);
  }

  lemma LandingKeepsSender(log: seq<Event>, b: Book, s: Sender, obs: Observation)
    requires b == Replay(log) && WaitersOk(b) && NotifiersOk(b) && SenderOk(log, b, s)
    ensures SenderOk(log + [Observed(obs)], RecordLanding(b, obs), s)
  {
    var e := Observed(obs);
    CreditStep(log, obs);
    LandingChannels(b, obs);
    ChannelStep(log, e, s.registeredAt, s.signature);
    RoundCreditedStep(log, e, s.round, s.registeredAt);
    if Credits(b, obs) {
      FireKeepsAck(log, e, b, s, obs.signature, b.sent[obs.signature].round);
      FireKeepsChannel(log, e, b, s, obs.signature, b.sent[obs.signature].round);
    }
  }

  lemma LandingKeepsBook(b: Book, obs: Observation)
    requires WaitersOk(b) && NotifiersOk(b)
    ensures WaitersOk(RecordLanding(b, obs)) && NotifiersOk(RecordLanding(b, obs))
  {
    LandingChannels(b, obs);
    if Credits(b, obs) {
      FireKeepsBook(b, obs.signature, b.sent[obs.signature].round);
    }
  }

  lemma StartKeepsInvariant(log: seq<Event>, b: Book, senders: seq<Sender>, round: string)
    requires WaitersOk(b) && NotifiersOk(b) && SendersOk(log, b, senders)
    ensures WaitersOk(StartRound(b, round)) && NotifiersOk(StartRound(b, round))
    ensures SendersOk(log + [Started(round)], StartRound(b, round), senders)
  {
    forall i | 0 <= i < |senders| ensures SenderOk(log + [Started(round)], StartRound(b, round), senders[i]) {
      StartKeepsSender(log, b, senders[i], round);
    }
  }

  lemma SendKeepsInvariant(log: seq<Event>, b: Book, senders: seq<Sender>, signature: string, record: SendRecord)
    requires WaitersOk(b) && NotifiersOk(b) && SendersOk(log, b, senders)
    ensures WaitersOk(RecordSend(b, signature, record)) && NotifiersOk(RecordSend(b, signature, record))
    ensures SendersOk(log + [Registered(signature, record)], RecordSend(b, signature, record),
                      senders + [NewSender(|log|, b, signature, record)])
  {
    SendKeepsBook(b, signature, record);
    SendAddsSender(log, b, signature, record);
    forall i | 0 <= i < |senders|
      ensures SenderOk(log + [Registered(signature, record)], RecordSend(b, signature, record), senders[i])
    {
      assert SenderOk(log, b, senders[i]);
      SendKeepsSender(log, b, senders[i], signature, record);
    }
  }

  lemma LandingKeepsInvariant(log: seq<Event>, b: Book, senders: seq<Sender>, obs: Observation)
    requires b == Replay(log) && WaitersOk(b) && NotifiersOk(b) && SendersOk(log, b, senders)
    ensures WaitersOk(RecordLanding(b, obs)) && NotifiersOk(RecordLanding(b, obs))
    ensures SendersOk(log + [Observed(obs)], RecordLanding(b, obs), senders)
  {
    LandingKeepsBook(b, obs);
    forall i | 0 <= i < |senders| ensures SenderOk(log + [Observed(obs)], RecordLanding(b, obs), senders[i]) {
      LandingKeepsSender(log, b, senders[i], obs);
    }
  }

  lemma BeginKeepsInvariant(s: System)
    requires Inv(s) && Enabled(s, BeginRound)
    ensures Inv(Do(s, BeginRound))
  {
    var round := s.ids[s.started];
    ReplayStep(s.log, Started(round));
    StartKeepsInvariant(s.log, s.book, s.senders, round);
  }

  lemma RegistrationKeepsInvariant(s: System, s': System, signature: string, record: SendRecord)
    requires Inv(s) && s'.log == s.log + [Registered(signature, record)]
             && s'.book == RecordSend(s.book, signature, record)
    requires s'.senders == s.senders + [NewSender(|s.log|, s.book, signature, record)]
    ensures Inv(s')
  {
    ReplayStep(s.log, Registered(signature, record));
    SendKeepsInvariant(s.log, s.book, s.senders, signature, record);
  }

  lemma SendStepKeepsInvariant(s: System, endpoint: nat, sentElapsed: nat)
    requires Inv(s) && Enabled(s, Send(endpoint, sentElapsed))
    ensures Inv(Do(s, Send(endpoint, sentElapsed)))
  {
    var signature := s.signatureOf(s.drawn[endpoint]);
    var record := SendRecord(s.endpoints[endpoint], sentElapsed, s.ids[s.started - 1]);
    RegistrationKeepsInvariant(s, Do(s, Send(endpoint, sentElapsed)), signature, record);
  }

  lemma ObserveKeepsInvariant(s: System, obs: Observation)
    requires Inv(s) && Enabled(s, Observe(obs))
    ensures Inv(Do(s, Observe(obs)))
  {
    ReplayStep(s.log, Observed(obs));
    LandingKeepsInvariant(s.log, s.book, s.senders, obs);
  }

  lemma WakeKeepsInvariant(s: System, i: nat, o: Outcome)
    requires Inv(s) && Enabled(s, Wake(i, o))
    ensures Inv(Do(s, Wake(i, o)))
  {
    assert SenderOk(s.log, s.book, s.senders[i]);
  }

  lemma StepKeepsInvariant(s: System, step: Step)
    requires Inv(s) && Enabled(s, step)
    ensures Inv(Do(s, step))
  {
    match step {
      case BeginRound => BeginKeepsInvariant(s);
      case Draw(_) =>
      case Send(endpoint, sentElapsed) => SendStepKeepsInvariant(s, endpoint, sentElapsed);
      case GiveUp(_) =>
      case Observe(obs) => ObserveKeepsInvariant(s, obs);
      case Wake(i, o) => WakeKeepsInvariant(s, i, o);
    }
  }

  lemma NextKeepsInvariant(s: System, s': System)
    requires Inv(s) && Next(s, s')
    ensures Inv(s')
  {
    var step :| Enabled(s, step) && s' == Do(s, step);
    StepKeepsInvariant(s, step);
  }

  lemma {:induction false} RunKeepsInvariant(run: seq<System>, n: nat)
    requires IsRun(run) && n < |run|
    ensures Inv(run[n])
  {
    if n > 0 {
      RunKeepsInvariant(run, n - 1);
      NextKeepsInvariant(run[n - 1], run[n - 1 + 1]);
    }
  }

  // ----- what the senders can rely on -----

  ghost predicate Waiting(s: System, i: nat) {
    i < |s.senders| && s.senders[i].ack < |s.book.oneshots| && s.senders[i].channel < |s.book.watches|
  }

  /**
   * In every reachable state: a sender's own channel is ready exactly when its send was credited, or its
   * signature registered again before that; its round's exactly when the round has been credited after
   * it registered; and the round channel is never lost without a message.
   */
  lemma ReadinessIsExact(run: seq<System>, n: nat, i: nat)
    requires IsRun(run) && n < |run| && i < |run[n].senders|
    ensures Waiting(run[n], i)
    ensures var s, log := run[n].senders[i], run[n].log;
            && (AckReady(run[n].book, s) <==>
                  OwnCredit(log, s.registeredAt, s.signature) || Replaced(log, s.registeredAt, s.signature))
            && (AckReady(run[n].book, s) && !OwnCredit(log, s.registeredAt, s.signature) <==>
                  Replaced(log, s.registeredAt, s.signature))
            && (RoundReady(run[n].book, s) <==> RoundCreditedSince(log, s.round, s.registeredAt))
            && !RoundLost(run[n].book, s)
  {
    RunKeepsInvariant(run, n);
    var s := run[n].senders[i];
    assert SenderOk(run[n].log, run[n].book, s);
    ChannelMeans(run[n].log, s.registeredAt, s.signature);
  }

  /** With unique signatures an own channel is ready exactly when its signature has been credited. */
  lemma FreshSignaturesReadExactly(run: seq<System>, n: nat, i: nat)
    requires IsRun(run) && n < |run| && i < |run[n].senders| && UniqueSignatures(run[n].log)
    ensures Waiting(run[n], i)
    ensures AckReady(run[n].book, run[n].senders[i]) <==> SignatureCredited(run[n].log, run[n].senders[i].signature)
  {
    var s := run[n].senders[i];
    RunKeepsInvariant(run, n);
    assert SenderOk(run[n].log, run[n].book, s);
    ReadinessIsExact(run, n, i);
    UniqueMeansOwn(run[n].log, s.registeredAt, s.signature);
  }

  /**
   * What an outcome tells: `SelfLanded` that the send was credited or its signature registered again
   * first, and with unique signatures that it was credited; `OtherLanded` that the round was credited
   * after registration. The dropped arm is never taken.
   */
  lemma OutcomesAreJustified(run: seq<System>, n: nat, i: nat)
    requires IsRun(run) && n < |run| && i < |run[n].senders|
    ensures var s, log := run[n].senders[i], run[n].log;
            && (s.outcome == Some(SelfLanded) ==>
                  OwnCredit(log, s.registeredAt, s.signature) || Replaced(log, s.registeredAt, s.signature))
            && (s.outcome == Some(SelfLanded) && UniqueSignatures(log) ==> SignatureCredited(log, s.signature))
            && (s.outcome == Some(OtherLanded) ==> RoundCreditedSince(log, s.round, s.registeredAt))
            && s.outcome != Some(Dropped)
  {
    var s := run[n].senders[i];
    RunKeepsInvariant(run, n);
    assert SenderOk(run[n].log, run[n].book, s);
    ChannelMeans(run[n].log, s.registeredAt, s.signature);
    if UniqueSignatures(run[n].log) {
      UniqueMeansOwn(run[n].log, s.registeredAt, s.signature);
    }
  }

  /**
   * Which ends a waiting sender can come to: its own landing exactly on its credit or a repeated
   * registration, another's exactly on a credit of its round since it registered, never the dropped arm,
   * a timeout always; and it then has that outcome.
   */
  lemma WakingIsExact(run: seq<System>, n: nat, i: nat)
    requires IsRun(run) && n < |run| && i < |run[n].senders| && run[n].senders[i].outcome == None
    ensures var s, sender := run[n], run[n].senders[i];
            && (Enabled(s, Wake(i, SelfLanded)) <==>
                  OwnCredit(s.log, sender.registeredAt, sender.signature)
                  || Replaced(s.log, sender.registeredAt, sender.signature))
            && (Enabled(s, Wake(i, OtherLanded)) <==> RoundCreditedSince(s.log, sender.round, sender.registeredAt))
            && !Enabled(s, Wake(i, Dropped)) && Enabled(s, Wake(i, TimedOut))
            && forall o :: Enabled(s, Wake(i, o)) ==> Do(s, Wake(i, o)).senders[i] == sender.(outcome := Some(o))
  {
    ReadinessIsExact(run, n, i);
  }

  /**
   * A credit makes the round channel of every sender of its round ready, leaves that of every sender
   * of another round as it was, and makes ready no other signature's own channel.
   */
  lemma CreditWakesItsRound(run: seq<System>, n: nat, obs: Observation, i: nat)
    requires IsRun(run) && n + 1 < |run|
    requires Enabled(run[n], Observe(obs)) && run[n + 1] == Do(run[n], Observe(obs))
    requires Credits(run[n].book, obs) && i < |run[n].senders|
    ensures Waiting(run[n], i) && Waiting(run[n + 1], i) && run[n].senders[i] == run[n + 1].senders[i]
    ensures var s, round := run[n].senders[i], run[n].book.sent[obs.signature].round;
            && (s.round == round ==> RoundReady(run[n + 1].book, s))
            && (s.round != round ==> RoundReady(run[n + 1].book, s) == RoundReady(run[n].book, s))
            && (s.signature == obs.signature ==> AckReady(run[n + 1].book, s))
            && (s.signature != obs.signature ==> AckReady(run[n + 1].book, s) == AckReady(run[n].book, s))
  {
    var s := run[n].senders[i];
    RunKeepsInvariant(run, n);
    RunKeepsInvariant(run, n + 1);
    assert SenderOk(run[n].log, run[n].book, s);
    assert SenderOk(run[n + 1].log, run[n + 1].book, run[n + 1].senders[i]);
    CreditStep(run[n].log, obs);
    ChannelStep(run[n].log, Observed(obs), s.registeredAt, s.signature);
    RoundCreditedStep(run[n].log, Observed(obs), s.round, s.registeredAt);
  }

  lemma ExtendRun(run: seq<System>, step: Step) returns (longer: seq<System>)
    requires IsRun(run) && Enabled(run[|run| - 1], step)
    ensures longer == run + [Do(run[|run| - 1], step)] && IsRun(longer)
  {
    var last := run[|run| - 1];
    longer := run + [Do(last, step)];
    assert Next(last, Do(last, step));
    forall i | 0 <= i < |longer| - 1 ensures Next(longer[i], longer[i + 1]) {
      if i < |run| - 1 {
        assert Next(run[i], run[i + 1]);
      }
    }
  }

  /** The state after the task of an endpoint has drawn a number, sent and registered. */
  ghost predicate AfterSend(s: System, s': System, endpoint: nat)
    requires endpoint < |s.endpoints| && 0 < s.started <= |s.ids|
  {
    var signature, k := s.signatureOf(s.counter), |s.senders|;
    && s'.log == s.log + [Registered(signature, SendRecord(s.endpoints[endpoint], 0, s.ids[s.started - 1]))]
    && s'.endpoints == s.endpoints && s'.ids == s.ids && s'.signatureOf == s.signatureOf && s'.started == s.started
    && s'.todo == s.todo - {endpoint} && s'.counter == s.counter + 1 && s'.drawn == s.drawn - {endpoint}
    && |s'.senders| == k + 1 && s.senders <= s'.senders
    && s'.senders[k].signature == signature && s'.senders[k].registeredAt == |s.log| && s'.senders[k].outcome == None
  }

  lemma SendInRun(run: seq<System>, endpoint: nat) returns (longer: seq<System>)
    requires IsRun(run)
    requires var s := run[|run| - 1];
             endpoint in s.todo && endpoint !in s.drawn && endpoint < |s.endpoints| && 0 < s.started <= |s.ids|
    ensures IsRun(longer) && |longer| == |run| + 2 && AfterSend(run[|run| - 1], longer[|run| + 1], endpoint)
  {
    var drawing := ExtendRun(run, Draw(endpoint));
    RunKeepsInvariant(drawing, |run|);
    longer := ExtendRun(drawing, Send(endpoint, 0));
  }

  /** A round of two endpoints in which both have registered. */
  lemma TwoSent(p: string, q: string, round: string, signatureOf: nat -> string) returns (run: seq<System>)
    ensures IsRun(run)
    ensures var s, a, b := run[|run| - 1], signatureOf(0), signatureOf(1);
            && s.log == [Started(round), Registered(a, SendRecord(p, 0, round)), Registered(b, SendRecord(q, 0, round))]
            && s.signatureOf == signatureOf && |s.senders| == 2 && s.senders[0].outcome == None
            && s.senders[0].signature == a && s.senders[0].registeredAt == 1
  {
    var s := System([p, q], [round], signatureOf, 0, {}, 0, map[], [], [], EMPTY_BOOK, []);
    run := ExtendRun([s], BeginRound);
    run := SendInRun(run, 0);
    run := SendInRun(run, 1);
  }

  /**
   * A run in which a sender reports a landing that never was: two endpoints of one round register the
   * same signature, and the first reads its dropped channel as its own landing.
   */
  lemma RepeatedSignatureMisreports(p: string, q: string, round: string, signatureOf: nat -> string)
    returns (run: seq<System>)
    requires signatureOf(0) == signatureOf(1)
    ensures IsRun(run) && run[|run| - 1].signatureOf == signatureOf
    ensures var last := run[|run| - 1];
            && |last.senders| == 2 && last.senders[0].outcome == Some(SelfLanded)
            && !SignatureCredited(last.log, last.senders[0].signature)
            && Replaced(last.log, last.senders[0].registeredAt, last.senders[0].signature)
  {
    run := TwoSent(p, q, round, signatureOf);
    var n := |run| - 1;
    assert Replaces(run[n].log, 1, signatureOf(0), 2);
    ReadinessIsExact(run, n, 0);
    NothingObserved(run[n].log, signatureOf(0));
    run := ExtendRun(run, Wake(0, SelfLanded));
  }

  lemma NothingObserved(log: seq<Event>, signature: string)
    requires forall i :: 0 <= i < |log| ==> !log[i].Observed?
    ensures !SignatureCredited(log, signature)
  {
  }

  // ----- signatures that never repeat -----

  ghost predicate Injective(f: nat -> string) {
    forall m, n :: f(m) == f(n) ==> m == n
  }

  /** No number is at once drawn by two tasks, used by two senders, or drawn and used. */
  ghost predicate NumbersOk(s: System) {
    && |s.used| == |s.senders|
    && (forall e :: e in s.drawn ==> s.drawn[e] < s.counter && s.drawn[e] !in s.used)
    && (forall e, f :: e in s.drawn && f in s.drawn && s.drawn[e] == s.drawn[f] ==> e == f)
    && (forall n :: n in s.used ==> n < s.counter)
    && (forall i, j :: 0 <= i < j < |s.used| ==> s.used[i] != s.used[j])
    && (forall i :: 0 <= i < |s.senders| ==> s.senders[i].signature == s.signatureOf(s.used[i]))
  }

  /** Sender `k` is the one registered by event `i`. */
  ghost predicate RegisteredBy(s: System, i: nat, k: nat) {
    k < |s.senders| && s.senders[k].registeredAt == i
  }

  ghost predicate EverySendHasSender(s: System) {
    forall i :: 0 <= i < |s.log| && s.log[i].Registered? ==> exists k: nat :: RegisteredBy(s, i, k)
  }

  lemma SendKeepsNumbers(s: System, s': System, endpoint: nat, sender: Sender)
    requires NumbersOk(s) && endpoint in s.drawn && sender.signature == s.signatureOf(s.drawn[endpoint])
    requires s'.drawn == s.drawn - {endpoint} && s'.used == s.used + [s.drawn[endpoint]]
    requires s'.signatureOf == s.signatureOf && s'.counter == s.counter && s'.senders == s.senders + [sender]
    ensures NumbersOk(s')
  {
  }

  lemma OtherKeepsNumbers(s: System, step: Step)
    requires NumbersOk(s) && Enabled(s, step) && !step.Send?
    ensures NumbersOk(Do(s, step))
  {
    if step.Wake? {
      assert Do(s, step).senders[step.sender].signature == s.senders[step.sender].signature;
    }
  }

  lemma StepKeepsNumbers(s: System, step: Step)
    requires NumbersOk(s) && Enabled(s, step)
    ensures NumbersOk(Do(s, step))
  {
    if step.Send? {
      var signature := s.signatureOf(s.drawn[step.endpoint]);
      var record := SendRecord(s.endpoints[step.endpoint], step.sentElapsed, s.ids[s.started - 1]);
      SendKeepsNumbers(s, Do(s, step), step.endpoint, NewSender(|s.log|, s.book, signature, record));
    } else {
      OtherKeepsNumbers(s, step);
    }
  }

  lemma SendersKept(s: System, step: Step, i: nat, k: nat)
    requires Enabled(s, step) && RegisteredBy(s, i, k)
    ensures RegisteredBy(Do(s, step), i, k)
  {
  }

  lemma LogGrows(s: System, step: Step)
    requires Enabled(s, step)
    ensures s.log <= Do(s, step).log && |Do(s, step).log| <= |s.log| + 1
    ensures |Do(s, step).log| > |s.log| && Do(s, step).log[|s.log|].Registered? ==>
            RegisteredBy(Do(s, step), |s.log|, |s.senders|)
  {
  }

  lemma StepKeepsSenders(s: System, step: Step)
    requires EverySendHasSender(s) && Enabled(s, step)
    ensures EverySendHasSender(Do(s, step))
  {
    var s' := Do(s, step);
    LogGrows(s, step);
    forall i | 0 <= i < |s'.log| && s'.log[i].Registered? ensures exists k: nat :: RegisteredBy(s', i, k) {
      if i < |s.log| {
        assert s.log[i] == s'.log[i];
        var k: nat :| RegisteredBy(s, i, k);
        SendersKept(s, step, i, k);
      }
    }
  }

  lemma {:induction false} RunKeepsNumbers(run: seq<System>, n: nat)
    requires IsRun(run) && n < |run|
    ensures NumbersOk(run[n]) && EverySendHasSender(run[n])
  {
    if n > 0 {
      RunKeepsNumbers(run, n - 1);
      NextKeepsNumbers(run[n - 1], run[n - 1 + 1]);
    }
  }

  lemma NextKeepsNumbers(s: System, s': System)
    requires Next(s, s') && NumbersOk(s) && EverySendHasSender(s)
    ensures NumbersOk(s') && EverySendHasSender(s')
  {
    var step :| Enabled(s, step) && s' == Do(s, step);
    StepKeepsNumbers(s, step);
    StepKeepsSenders(s, step);
  }

  /** Unless two numbers lead to one signature, no run ever registers a signature twice. */
  lemma SignaturesNeverRepeat(run: seq<System>, n: nat)
    requires IsRun(run) && n < |run| && Injective(run[n].signatureOf)
    ensures UniqueSignatures(run[n].log)
  {
    var s := run[n];
    RunKeepsInvariant(run, n);
    RunKeepsNumbers(run, n);
    forall i, j | 0 <= i < j < |s.log| && s.log[i].Registered? && s.log[j].Registered?
      ensures s.log[i].signature != s.log[j].signature
    {
      var k: nat :| RegisteredBy(s, i, k);
      var m: nat :| RegisteredBy(s, j, m);
      assert SenderOk(s.log, s.book, s.senders[k]) && SenderOk(s.log, s.book, s.senders[m]);
      assert s.used[k] != s.used[m];
    }
  }
}
