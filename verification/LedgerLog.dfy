/** The book agrees with a direct scan of the log that keeps no maps at all. */
module LedgerLog {
  import opened Wrappers
  import opened Ledger

  predicate Mentions(e: Event, signature: string) {
    (e.Registered? && e.signature == signature) || (e.Observed? && e.obs.signature == signature)
  }

  /** Position of the last registration or observation of `signature`. */
  function LastMention(log: seq<Event>, signature: string): (r: Option<nat>)
    ensures r.Some? ==> r.value < |log| && Mentions(log[r.value], signature)
                        && forall k :: r.value < k < |log| ==> !Mentions(log[k], signature)
    ensures r.None? ==> forall k :: 0 <= k < |log| ==> !Mentions(log[k], signature)
  {
    if log == [] then None
    else if Mentions(log[|log| - 1], signature) then Some(|log| - 1)
    else LastMention(log[..|log| - 1], signature)
  }

  /** The send an observation would be matched with: registered, and not mentioned since. */
  function PendingSend(log: seq<Event>, signature: string): Option<SendRecord> {
    var at := LastMention(log, signature);
    if at.Some? && log[at.value].Registered? then Some(log[at.value].record) else None
  }

  datatype Credit = Credit(signature: string, provider: string, round: string, latencyMs: real)

  /** The credit that the event at `j` earns, if any. */
  function CreditAt(log: seq<Event>, j: nat): Option<Credit>
    requires j < |log|
  {
    match log[j]
    case Observed(obs) =>
      (match PendingSend(log[..j], obs.signature)
       case Some(send) =>
         if Tag(obs.memo) == send.provider
         then Some(Credit(obs.signature, send.provider, send.round, LatencyMs(send.sentElapsed, obs.elapsed)))
         else None
       case None => None)
    case _ => None
  }

  function CreditsIn(log: seq<Event>): seq<Credit> {
    if log == [] then []
    else
      var c := CreditAt(log, |log| - 1);
      CreditsIn(log[..|log| - 1]) + if c.Some? then [c.value] else []
  }

  function LatenciesOf(credits: seq<Credit>, provider: string): seq<real> {
    if credits == [] then []
    else
      var c := credits[|credits| - 1];
      LatenciesOf(credits[..|credits| - 1], provider) + if c.provider == provider then [c.latencyMs] else []
  }

  function RoundsOf(credits: seq<Credit>): set<string> {
    set c | c in credits :: c.round
  }

  function StartedCount(log: seq<Event>): nat {
    if log == [] then 0 else StartedCount(log[..|log| - 1]) + if log[|log| - 1].Started? then 1 else 0
  }

  function ProvidersIn(log: seq<Event>): set<string> {
    if log == [] then {}
    else
      var e := log[|log| - 1];
      ProvidersIn(log[..|log| - 1]) + if e.Registered? then {e.record.provider} else {}
  }

  lemma LatenciesOfStep(credits: seq<Credit>, c: Credit, provider: string)
    ensures LatenciesOf(credits + [c], provider)
         == LatenciesOf(credits, provider) + if c.provider == provider then [c.latencyMs] else []
  {
    assert (credits + [c])[..|credits|] == credits;
  }

  lemma PendingSendStep(log: seq<Event>, e: Event, signature: string)
    ensures PendingSend(log + [e], signature) ==
            if e.Registered? && e.signature == signature then Some(e.record)
            else if e.Observed? && e.obs.signature == signature then None
            else PendingSend(log, signature)
  {
    assert (log + [e])[..|log|] == log;
  }

  /** What an event earns depends only on the log up to it. */
  lemma CreditAtStable(log: seq<Event>, more: seq<Event>, j: nat)
    requires j < |log|
    ensures CreditAt(log + more, j) == CreditAt(log, j)
  {
    assert (log + more)[..j] == log[..j];
  }

  lemma CreditsInStep(log: seq<Event>, e: Event)
    ensures CreditsIn(log + [e]) ==
            CreditsIn(log) + match CreditAt(log + [e], |log|) case Some(c) => [c] case None => []
  {
    assert (log + [e])[..|log|] == log;
  }

  predicate SentMatchesFor(log: seq<Event>, b: Book, signature: string) {
    && (signature in b.sent <==> PendingSend(log, signature).Some?)
    && (signature in b.sent ==> b.sent[signature] == PendingSend(log, signature).value)
  }

  ghost predicate SentMatches(log: seq<Event>, b: Book) {
    forall s :: SentMatchesFor(log, b, s)
  }

  ghost predicate MetricsMatch(log: seq<Event>, b: Book) {
    && b.metrics.Keys == ProvidersIn(log)
    && (forall p :: p in b.metrics ==>
          b.metrics[p] == ProviderMetrics(|LatenciesOf(CreditsIn(log), p)|, LatenciesOf(CreditsIn(log), p)))
    && (forall c :: c in CreditsIn(log) ==> c.provider in b.metrics)
  }

  lemma SentAfter(b: Book, e: Event, signature: string)
    requires b.WellFormed()
    ensures signature in Apply(b, e).sent <==>
              (e.Registered? && e.signature == signature)
              || (signature in b.sent && !(e.Observed? && e.obs.signature == signature))
    ensures signature in Apply(b, e).sent ==>
              Apply(b, e).sent[signature] ==
              if e.Registered? && e.signature == signature then e.record else b.sent[signature]
  {
  }

  lemma SentStep(log: seq<Event>, e: Event, b: Book)
    requires b.WellFormed() && SentMatches(log, b)
    ensures SentMatches(log + [e], Apply(b, e))
  {
    forall s ensures SentMatchesFor(log + [e], Apply(b, e), s) {
      assert SentMatchesFor(log, b, s);
      SentAfter(b, e, s);
      PendingSendStep(log, e, s);
    }
  }

  lemma {:induction false} SentRefinesLog(log: seq<Event>)
    ensures SentMatches(log, Replay(log))
  {
    if log != [] {
      SentRefinesLog(log[..|log| - 1]);
      SentStep(log[..|log| - 1], log[|log| - 1], Replay(log[..|log| - 1]));
      assert log == log[..|log| - 1] + [log[|log| - 1]];
    }
  }

  lemma SentAt(log: seq<Event>, signature: string)
    ensures SentMatchesFor(log, Replay(log), signature)
  {
    SentRefinesLog(log);
  }

  /** An observation is credited by the book exactly when the scan credits it. */
  lemma CreditStep(log: seq<Event>, obs: Observation)
    ensures var c := CreditAt(log + [Observed(obs)], |log|);
            var b := Replay(log);
            && (c.Some? <==> Credits(b, obs))
            && (c.Some? ==> var send := b.sent[obs.signature];
                            c.value == Credit(obs.signature, send.provider, send.round,
                                              LatencyMs(send.sentElapsed, obs.elapsed)))
  {
    assert (log + [Observed(obs)])[..|log|] == log;
    SentAt(log, obs.signature);
  }

  lemma NoLatencies(credits: seq<Credit>, provider: string)
    requires forall c :: c in credits ==> c.provider != provider
    ensures LatenciesOf(credits, provider) == []
  {
  }

  lemma {:induction false} RegisteredProvider(log: seq<Event>, i: nat)
    requires i < |log| && log[i].Registered?
    ensures log[i].record.provider in ProvidersIn(log)
  {
    if i < |log| - 1 {
      RegisteredProvider(log[..|log| - 1], i);
    }
  }

  lemma ProvidersStep(init: seq<Event>, e: Event)
    ensures ProvidersIn(init + [e]) == ProvidersIn(init) + if e.Registered? then {e.record.provider} else {}
  {
    assert (init + [e])[..|init|] == init;
  }

  lemma MetricsAfterSend(init: seq<Event>, b: Book, signature: string, record: SendRecord)
    requires b.WellFormed() && MetricsMatch(init, b)
    ensures MetricsMatch(init + [Registered(signature, record)], RecordSend(b, signature, record))
  {
    var e := Registered(signature, record);
    CreditsInStep(init, e);
    ProvidersStep(init, e);
    assert CreditsIn(init + [e]) == CreditsIn(init);
    if record.provider !in b.metrics {
      NoLatencies(CreditsIn(init), record.provider);
      assert MetricsOf(b, record.provider) == ProviderMetrics(0, []);
    }
    assert RecordSend(b, signature, record).metrics == b.metrics[record.provider := MetricsOf(b, record.provider)];
  }

  lemma MetricsAfterCredit(init: seq<Event>, e: Event, b: Book, b': Book, c: Credit)
    requires MetricsMatch(init, b) && !e.Registered?
    requires CreditsIn(init + [e]) == CreditsIn(init) + [c]
    requires c.provider in b.metrics
    requires b'.metrics == b.metrics[c.provider := ProviderMetrics(
                             b.metrics[c.provider].landed + 1, b.metrics[c.provider].latenciesMs + [c.latencyMs])]
    ensures MetricsMatch(init + [e], b')
  {
    var log := init + [e];
    ProvidersStep(init, e);
    assert b'.metrics.Keys == b.metrics.Keys;
    forall p | p in b'.metrics
      ensures b'.metrics[p] == ProviderMetrics(|LatenciesOf(CreditsIn(log), p)|, LatenciesOf(CreditsIn(log), p))
    {
      LatenciesOfStep(CreditsIn(init), c, p);
    }
  }

  lemma LandingMetrics(b: Book, obs: Observation)
    requires b.WellFormed()
    ensures !Credits(b, obs) ==> RecordLanding(b, obs).metrics == b.metrics
    ensures Credits(b, obs) && b.sent[obs.signature].provider in b.metrics ==>
              var send := b.sent[obs.signature];
              var m := b.metrics[send.provider];
              RecordLanding(b, obs).metrics == b.metrics[send.provider := ProviderMetrics(
                m.landed + 1, m.latenciesMs + [LatencyMs(send.sentElapsed, obs.elapsed)])]
  {
  }

  lemma CreditedProviderKnown(init: seq<Event>, obs: Observation)
    requires MetricsMatch(init, Replay(init)) && Credits(Replay(init), obs)
    ensures Replay(init).sent[obs.signature].provider in Replay(init).metrics
  {
    SentAt(init, obs.signature);
    RegisteredProvider(init, LastMention(init, obs.signature).value);
  }

  lemma MetricsAfterObservation(init: seq<Event>, obs: Observation, b: Book)
    requires b == Replay(init) && MetricsMatch(init, b)
    ensures MetricsMatch(init + [Observed(obs)], RecordLanding(b, obs))
  {
    var e := Observed(obs);
    CreditsInStep(init, e);
    CreditStep(init, obs);
    LandingMetrics(b, obs);
    var b' := RecordLanding(b, obs);
    if Credits(b, obs) {
      CreditedProviderKnown(init, obs);
      MetricsAfterCredit(init, e, b, b', CreditAt(init + [e], |init|).value);
    } else {
      ProvidersStep(init, e);
      assert CreditsIn(init + [e]) == CreditsIn(init);
    }
  }

  lemma MetricsStep(init: seq<Event>, e: Event)
    requires MetricsMatch(init, Replay(init))
    ensures MetricsMatch(init + [e], Replay(init + [e]))
  {
    ReplayStep(init, e);
    match e {
      case Started(_) =>
        CreditsInStep(init, e);
        ProvidersStep(init, e);
        assert CreditsIn(init + [e]) == CreditsIn(init);
      case Registered(signature, record) => MetricsAfterSend(init, Replay(init), signature, record);
      case Observed(obs) => MetricsAfterObservation(init, obs, Replay(init));
    }
  }

  lemma {:induction false} MetricsRefineLog(log: seq<Event>)
    ensures MetricsMatch(log, Replay(log))
  {
    if log != [] {
      MetricsRefineLog(log[..|log| - 1]);
      MetricsStep(log[..|log| - 1], log[|log| - 1]);
      assert log == log[..|log| - 1] + [log[|log| - 1]];
    }
  }

  lemma {:induction false} RoundsRefineLog(log: seq<Event>)
    ensures Replay(log).landedRounds == RoundsOf(CreditsIn(log))
    ensures Replay(log).roundsAttempted == StartedCount(log)
  {
    if log != [] {
      var init, e := log[..|log| - 1], log[|log| - 1];
      assert log == init + [e];
      RoundsRefineLog(init);
      CreditsInStep(init, e);
      ReplayStep(init, e);
      if e.Observed? {
        CreditStep(init, e.obs);
        if Credits(Replay(init), e.obs) {
          var c := CreditAt(log, |init|).value;
          assert CreditsIn(log) == CreditsIn(init) + [c];
          assert RoundsOf(CreditsIn(log)) == RoundsOf(CreditsIn(init)) + {c.round};
        }
      }
    }
  }

  /** The ledger refines the log: every figure the book keeps is the one the scan computes. */
  lemma LedgerRefinesLog(log: seq<Event>)
    ensures var b := Replay(log);
            && SentMatches(log, b)
            && MetricsMatch(log, b)
            && b.landedRounds == RoundsOf(CreditsIn(log))
            && b.roundsAttempted == StartedCount(log)
  {
    SentRefinesLog(log);
    MetricsRefineLog(log);
    RoundsRefineLog(log);
  }

  // ----- signatures registered at most once -----

  ghost predicate UniqueSignatures(log: seq<Event>) {
    forall i, j :: 0 <= i < j < |log| && log[i].Registered? && log[j].Registered? ==>
        log[i].signature != log[j].signature
  }

  ghost predicate FreshSignature(log: seq<Event>, signature: string) {
    forall i :: 0 <= i < |log| && log[i].Registered? ==> log[i].signature != signature
  }

  predicate ObservesAt(log: seq<Event>, j: nat, signature: string)
    requires j < |log|
  {
    log[j].Observed? && log[j].obs.signature == signature
  }

  /** `j` is the first observation of the send registered at `i`. */
  ghost predicate FirstObservation(log: seq<Event>, i: nat, j: nat)
    requires i < |log| && log[i].Registered?
  {
    i < j < |log| && ObservesAt(log, j, log[i].signature)
    && forall k :: i < k < j ==> !ObservesAt(log, k, log[i].signature)
  }

  /**
   * A send is credited exactly by its first observation after registration, exactly when that
   * carries its provider's tag; earlier and repeated observations earn nothing.
   */
  lemma CreditedExactlyOnFirstObservation(log: seq<Event>, i: nat, j: nat)
    requires UniqueSignatures(log)
    requires i < |log| && log[i].Registered? && j < |log| && ObservesAt(log, j, log[i].signature)
    ensures CreditAt(log, j).Some? <==> FirstObservation(log, i, j) && Tag(log[j].obs.memo) == log[i].record.provider
    ensures CreditAt(log, j).Some? ==>
              CreditAt(log, j).value == Credit(log[i].signature, log[i].record.provider, log[i].record.round,
                                               LatencyMs(log[i].record.sentElapsed, log[j].obs.elapsed))
              && IsLatency(CreditAt(log, j).value.latencyMs, log[i].record.sentElapsed, log[j].obs.elapsed)
  {
    LatencyMeans(log[i].record.sentElapsed, log[j].obs.elapsed);
    var sig := log[i].signature;
    var at := LastMention(log[..j], sig);
    if FirstObservation(log, i, j) {
      assert log[..j][i] == log[i];
      assert Mentions(log[..j][i], sig);
      forall k | i < k < j ensures !Mentions(log[..j][k], sig) {
        assert log[..j][k] == log[k] && !ObservesAt(log, k, sig);
      }
      assert at == Some(i);
    }
  }
}
