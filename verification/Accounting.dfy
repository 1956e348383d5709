/** Conservation over whole runs: sends, credits, mismatches, rounds and win shares. */
module Accounting {
  import opened Wrappers
  import opened OrderStatistics
  import opened Ledger
  import opened LedgerLog
  import opened Summary
  import LandingBooks
  import Text
  import Visiting

  ghost function SumLanded(metrics: map<string, ProviderMetrics>): nat
    decreases |metrics|
  {
    if metrics == map[] then 0
    else
      var p :| p in metrics;
      metrics[p].landed + SumLanded(metrics - {p})
  }

  lemma {:induction false} SumLandedSplit(metrics: map<string, ProviderMetrics>, p: string)
    requires p in metrics
    ensures SumLanded(metrics) == metrics[p].landed + SumLanded(metrics - {p})
    decreases |metrics|
  {
    var q :| q in metrics && SumLanded(metrics) == metrics[q].landed + SumLanded(metrics - {q});
    if q != p {
      SumLandedSplit(metrics - {q}, p);
      SumLandedSplit(metrics - {p}, q);
      assert metrics - {q} - {p} == metrics - {p} - {q};
    }
  }

  lemma TotalsOfUpdate(metrics: map<string, ProviderMetrics>, p: string, m: ProviderMetrics)
    ensures SumLanded(metrics[p := m]) == m.landed + SumLanded(metrics - {p})
    ensures AllLatencies(metrics[p := m]) == multiset(m.latenciesMs) + AllLatencies(metrics - {p})
  {
    assert metrics[p := m] - {p} == metrics - {p};
    SumLandedSplit(metrics[p := m], p);
    AllLatenciesSplit(metrics[p := m], p);
  }

  /** The latency each credit measured, in log order. */
  function CreditLatencies(credits: seq<Credit>): seq<real> {
    seq(|credits|, i requires 0 <= i < |credits| => credits[i].latencyMs)
  }

  lemma TotalsAfterSend(b: Book, signature: string, record: SendRecord)
    requires b.WellFormed()
    ensures SumLanded(RecordSend(b, signature, record).metrics) == SumLanded(b.metrics)
    ensures AllLatencies(RecordSend(b, signature, record).metrics) == AllLatencies(b.metrics)
  {
    var p := record.provider;
    TotalsOfUpdate(b.metrics, p, MetricsOf(b, p));
    if p in b.metrics {
      SumLandedSplit(b.metrics, p);
      AllLatenciesSplit(b.metrics, p);
    } else {
      assert b.metrics - {p} == b.metrics;
    }
  }

  ghost predicate TotalsGrow(before: map<string, ProviderMetrics>, after: map<string, ProviderMetrics>,
                             c: Option<Credit>) {
    && SumLanded(after) == SumLanded(before) + (if c.Some? then 1 else 0)
    && AllLatencies(after) == AllLatencies(before) + (if c.Some? then multiset{c.value.latencyMs} else multiset{})
  }

  lemma TotalsOfCredit(before: map<string, ProviderMetrics>, after: map<string, ProviderMetrics>, p: string, c: Credit)
    requires p in before
    requires after == before[p := ProviderMetrics(before[p].landed + 1, before[p].latenciesMs + [c.latencyMs])]
    ensures TotalsGrow(before, after, Some(c))
  {
    SumLandedSplit(before, p);
    AllLatenciesSplit(before, p);
    TotalsOfUpdate(before, p, ProviderMetrics(before[p].landed + 1, before[p].latenciesMs + [c.latencyMs]));
  }

  lemma CreditedProvider(log: seq<Event>, obs: Observation)
    requires Credits(Replay(log), obs)
    ensures Replay(log).sent[obs.signature].provider in Replay(log).metrics
  {
    MetricsRefineLog(log);
    CreditedProviderKnown(log, obs);
  }

  lemma LandingTotals(b: Book, obs: Observation, c: Option<Credit>)
    requires b.WellFormed()
    requires c.Some? <==> Credits(b, obs)
    requires c.Some? ==> b.sent[obs.signature].provider in b.metrics
                         && c.value.latencyMs == LatencyMs(b.sent[obs.signature].sentElapsed, obs.elapsed)
    ensures TotalsGrow(b.metrics, RecordLanding(b, obs).metrics, c)
  {
    LandingMetrics(b, obs);
    if c.Some? {
      TotalsOfCredit(b.metrics, RecordLanding(b, obs).metrics, b.sent[obs.signature].provider, c.value);
    }
  }

  lemma TotalsAfterLanding(log: seq<Event>, obs: Observation)
    ensures TotalsGrow(Replay(log).metrics, RecordLanding(Replay(log), obs).metrics,
            CreditAt(log + [Observed(obs)], |log|))
  {
    CreditStep(log, obs);
    if Credits(Replay(log), obs) {
      CreditedProvider(log, obs);
    }
    LandingTotals(Replay(log), obs, CreditAt(log + [Observed(obs)], |log|));
  }

  lemma QuietTotals(b: Book, e: Event)
    requires b.WellFormed() && !e.Observed?
    ensures TotalsGrow(b.metrics, Apply(b, e).metrics, None)
  {
    if e.Registered? {
      TotalsAfterSend(b, e.signature, e.record);
    }
  }

  lemma CallTotals(log: seq<Event>, e: Event)
    ensures TotalsGrow(Replay(log).metrics, Apply(Replay(log), e).metrics, CreditAt(log + [e], |log|))
  {
    if e.Observed? {
      TotalsAfterLanding(log, e.obs);
    } else {
      QuietTotals(Replay(log), e);
    }
  }

  lemma TotalsStep(log: seq<Event>, e: Event, before: map<string, ProviderMetrics>, after: map<string, ProviderMetrics>)
    requires SumLanded(before) == |CreditsIn(log)|
    requires AllLatencies(before) == multiset(CreditLatencies(CreditsIn(log)))
    requires TotalsGrow(before, after, CreditAt(log + [e], |log|))
    ensures SumLanded(after) == |CreditsIn(log + [e])|
    ensures AllLatencies(after) == multiset(CreditLatencies(CreditsIn(log + [e])))
  {
    var c := CreditAt(log + [e], |log|);
    CreditsInStep(log, e);
    if c.Some? {
      assert CreditLatencies(CreditsIn(log + [e])) == CreditLatencies(CreditsIn(log)) + [c.value.latencyMs];
    } else {
      assert CreditsIn(log + [e]) == CreditsIn(log);
    }
  }

  ghost predicate TotalsMatch(log: seq<Event>, metrics: map<string, ProviderMetrics>) {
    && SumLanded(metrics) == |CreditsIn(log)|
    && AllLatencies(metrics) == multiset(CreditLatencies(CreditsIn(log)))
  }

  lemma TotalsExtend(log: seq<Event>, e: Event)
    requires TotalsMatch(log, Replay(log).metrics)
    ensures TotalsMatch(log + [e], Replay(log + [e]).metrics)
  {
    CallTotals(log, e);
    ReplayStep(log, e);
    TotalsStep(log, e, Replay(log).metrics, Replay(log + [e]).metrics);
  }

  lemma {:induction false} TotalsMatchAlways(log: seq<Event>)
    ensures TotalsMatch(log, Replay(log).metrics)
  {
    if log != [] {
      TotalsMatchAlways(log[..|log| - 1]);
      TotalsExtend(log[..|log| - 1], log[|log| - 1]);
      assert log == log[..|log| - 1] + [log[|log| - 1]];
    }
  }

  /** Summed over providers, the book holds one win and one latency for each credit in the log. */
  lemma TotalsAreCredits(log: seq<Event>)
    ensures SumLanded(Replay(log).metrics) == |CreditsIn(log)|
    ensures AllLatencies(Replay(log).metrics) == multiset(CreditLatencies(CreditsIn(log)))
  {
    TotalsMatchAlways(log);
  }

  /** The final summary is the one computed from the log alone. */
  lemma {:induction false} SummaryRefinesLog(log: seq<Event>, r: LandingSummary)
    requires Summarises(r, Replay(log))
    ensures var latencies := CreditLatencies(CreditsIn(log));
            && r.overall == ComputeOverall(latencies) && IsMean(r.overall.avgMs, latencies)
            && IsFigure(r.overall.p50, latencies, 0.50) && IsFigure(r.overall.p90, latencies, 0.90)
            && IsFigure(r.overall.p95, latencies, 0.95) && IsFigure(r.overall.p99, latencies, 0.99)
    ensures r.totalLanded == |RoundsOf(CreditsIn(log))| && r.rounds == StartedCount(log)
    ensures forall p :: p in r.providers ==>
              p.name in ProvidersIn(log)
              && p.landed == |LatenciesOf(CreditsIn(log), p.name)|
              && p.latenciesMs == Sort(LatenciesOf(CreditsIn(log), p.name))
    ensures forall name :: name in ProvidersIn(log) ==> exists p :: p in r.providers && p.name == name
  {
    var b := Replay(log);
    LedgerRefinesLog(log);
    TotalsAreCredits(log);
    var x: seq<real> :| multiset(x) == AllLatencies(b.metrics) && r.overall == ComputeOverall(x);
    OverallCanonical(x, CreditLatencies(CreditsIn(log)));
    OverallFigures(CreditLatencies(CreditsIn(log)), r.overall);
    forall name | name in ProvidersIn(log) ensures exists p :: p in r.providers && p.name == name {
      assert FromMetrics(name, b.metrics[name]) in r.providers;
    }
  }

  function SummariesOf(order: seq<string>, metrics: map<string, ProviderMetrics>): seq<ProviderSummary>
    requires forall k :: k in order ==> k in metrics
  {
    seq(|order|, i requires 0 <= i < |order| => FromMetrics(order[i], metrics[order[i]]))
  }

  /** Every book has a summary. */
  lemma SummaryExists(log: seq<Event>) returns (r: LandingSummary)
    ensures Summarises(r, Replay(log))
  {
    var b, latencies := Replay(log), CreditLatencies(CreditsIn(log));
    var order := Visiting.SomeOrder(b.metrics.Keys);
    var providers := SummariesOf(order, b.metrics);
    LandingBooks.SortedProviders(order, providers, b.metrics);
    TotalsAreCredits(log);
    r := LandingSummary(SortByName(providers), |b.landedRounds|, ComputeOverall(latencies), b.roundsAttempted);
    assert multiset(latencies) == AllLatencies(b.metrics);
  }

  // ----- conservation of sends -----

  function SendCount(log: seq<Event>): nat {
    if log == [] then 0 else SendCount(log[..|log| - 1]) + if log[|log| - 1].Registered? then 1 else 0
  }

  /** The pending send that the last event consumes under another provider's tag. */
  predicate MismatchAt(log: seq<Event>, j: nat)
    requires j < |log|
  {
    log[j].Observed? && PendingSend(log[..j], log[j].obs.signature).Some? && CreditAt(log, j).None?
  }

  function Mismatches(log: seq<Event>): seq<string> {
    if log == [] then []
    else
      Mismatches(log[..|log| - 1])
      + if MismatchAt(log, |log| - 1) then [log[|log| - 1].obs.signature] else []
  }

  predicate OverwriteAt(log: seq<Event>, j: nat)
    requires j < |log|
  {
    log[j].Registered? && PendingSend(log[..j], log[j].signature).Some?
  }

  function OverwriteCount(log: seq<Event>): nat {
    if log == [] then 0 else OverwriteCount(log[..|log| - 1]) + if OverwriteAt(log, |log| - 1) then 1 else 0
  }

  lemma SentStep(b: Book, e: Event)
    requires b.WellFormed()
    ensures |Apply(b, e).sent| == |b.sent| +
            match e
            case Started(_) => 0
            case Registered(signature, _) => if signature in b.sent then 0 else 1
            case Observed(obs) => if obs.signature in b.sent then -1 else 0
  {
    if e.Observed? && e.obs.signature in b.sent {
      assert b.sent.Keys - {e.obs.signature} + {e.obs.signature} == b.sent.Keys;
      assert Apply(b, e).sent.Keys == b.sent.Keys - {e.obs.signature};
      assert |Apply(b, e).sent.Keys| == |Apply(b, e).sent| && |b.sent.Keys| == |b.sent|;
    }
  }

  /** The event's signature has a send pending when it comes. */
  predicate PendingBefore(log: seq<Event>, e: Event) {
    !e.Started? && PendingSend(log, if e.Registered? then e.signature else e.obs.signature).Some?
  }

  lemma CountsStep(log: seq<Event>, e: Event)
    ensures var credited := CreditAt(log + [e], |log|).Some?;
            && SendCount(log + [e]) == SendCount(log) + (if e.Registered? then 1 else 0)
            && OverwriteCount(log + [e]) ==
               OverwriteCount(log) + (if e.Registered? && PendingBefore(log, e) then 1 else 0)
            && |Mismatches(log + [e])| ==
               |Mismatches(log)| + (if e.Observed? && PendingBefore(log, e) && !credited then 1 else 0)
            && |CreditsIn(log + [e])| == |CreditsIn(log)| + (if credited then 1 else 0)
            && (credited ==> e.Observed? && PendingBefore(log, e))
  {
    assert (log + [e])[..|log|] == log;
  }

  lemma SendsSplitStep(log: seq<Event>, e: Event, sent: nat, sent': nat)
    requires SendCount(log) == sent + |CreditsIn(log)| + |Mismatches(log)| + OverwriteCount(log)
    requires sent' == sent + if e.Registered? && !PendingBefore(log, e) then 1
                             else if e.Observed? && PendingBefore(log, e) then -1 else 0
    ensures SendCount(log + [e]) ==
            sent' + |CreditsIn(log + [e])| + |Mismatches(log + [e])| + OverwriteCount(log + [e])
  {
    CountsStep(log, e);
  }

  lemma SentGrows(log: seq<Event>, e: Event)
    ensures |Replay(log + [e]).sent| ==
            |Replay(log).sent| + if e.Registered? && !PendingBefore(log, e) then 1
                                 else if e.Observed? && PendingBefore(log, e) then -1 else 0
  {
    ReplayStep(log, e);
    SentStep(Replay(log), e);
    if !e.Started? {
      SentAt(log, if e.Registered? then e.signature else e.obs.signature);
    }
  }

  lemma {:induction false} SendsSplit(log: seq<Event>)
    ensures SendCount(log) == |Replay(log).sent| + |CreditsIn(log)| + |Mismatches(log)| + OverwriteCount(log)
  {
    if log != [] {
      var init, e := log[..|log| - 1], log[|log| - 1];
      assert log == init + [e];
      SendsSplit(init);
      SentGrows(init, e);
      SendsSplitStep(init, e, |Replay(init).sent|, |Replay(log).sent|);
    }
  }

  /**
   * Every send registered is still pending, won, spent on a foreign tag, or replaced by a later
   * send of the same signature.
   */
  lemma {:induction false} SendsConserved(log: seq<Event>)
    ensures SendCount(log) ==
            |Replay(log).sent| + SumLanded(Replay(log).metrics) + |Mismatches(log)| + OverwriteCount(log)
    ensures UniqueSignatures(log) ==> OverwriteCount(log) == 0
  {
    SendsSplit(log);
    TotalsAreCredits(log);
    if UniqueSignatures(log) {
      UniqueNeverOverwrites(log);
    }
  }

  lemma UniqueExtends(log: seq<Event>)
    requires log != [] && UniqueSignatures(log)
    ensures UniqueSignatures(log[..|log| - 1])
    ensures log[|log| - 1].Registered? ==> FreshSignature(log[..|log| - 1], log[|log| - 1].signature)
  {
    var init := log[..|log| - 1];
    assert forall i :: 0 <= i < |init| ==> init[i] == log[i];
  }

  lemma {:induction false} UniqueNeverOverwrites(log: seq<Event>)
    requires UniqueSignatures(log)
    ensures OverwriteCount(log) == 0
  {
    if log != [] {
      UniqueExtends(log);
      UniqueNeverOverwrites(log[..|log| - 1]);
    }
  }

  ghost predicate WaitersSplit(log: seq<Event>, b: Book) {
    && b.waiters.Keys == b.sent.Keys + (set s | s in Mismatches(log))
    && (forall s :: s in Mismatches(log) ==> s !in b.sent && !FreshSignature(log, s))
  }

  lemma MismatchesStep(log: seq<Event>, e: Event)
    ensures Mismatches(log + [e]) == Mismatches(log) + if MismatchAt(log + [e], |log|) then [e.obs.signature] else []
  {
    assert (log + [e])[..|log|] == log;
  }

  lemma StillRegistered(log: seq<Event>, e: Event, s: string)
    requires !FreshSignature(log, s)
    ensures !FreshSignature(log + [e], s)
  {
    var i :| 0 <= i < |log| && log[i].Registered? && log[i].signature == s;
    assert (log + [e])[i] == log[i];
  }

  lemma WaitersAfterLanding(b: Book, obs: Observation)
    requires b.WellFormed()
    ensures var r := RecordLanding(b, obs);
            && r.sent == b.sent - {obs.signature}
            && r.waiters == if Credits(b, obs) then b.waiters - {obs.signature} else b.waiters
  {
  }

  /** A mismatch moves the signature from the pending sends to the mismatched ones; a credit drops it. */
  lemma LandingMismatch(log: seq<Event>, obs: Observation)
    ensures Mismatches(log + [Observed(obs)]) == Mismatches(log) +
              if obs.signature in Replay(log).sent && !Credits(Replay(log), obs) then [obs.signature] else []
    ensures obs.signature in Replay(log).sent ==> !FreshSignature(log, obs.signature)
  {
    var e := Observed(obs);
    assert (log + [e])[..|log|] == log;
    MismatchesStep(log, e);
    SentAt(log, obs.signature);
    CreditStep(log, obs);
    if obs.signature in Replay(log).sent {
      var i := LastMention(log, obs.signature).value;
      assert log[i].signature == obs.signature;
    }
  }

  lemma WaitersSplitLanding(log: seq<Event>, obs: Observation, b: Book)
    requires b == Replay(log) && WaitersSplit(log, b)
    ensures WaitersSplit(log + [Observed(obs)], RecordLanding(b, obs))
  {
    var log' := log + [Observed(obs)];
    LandingMismatch(log, obs);
    WaitersAfterLanding(b, obs);
    forall s | s in Mismatches(log') ensures !FreshSignature(log', s) {
      StillRegistered(log, Observed(obs), s);
    }
  }

  lemma WaitersAfterSend(b: Book, signature: string, record: SendRecord)
    requires b.WellFormed()
    ensures RecordSend(b, signature, record).waiters.Keys == b.waiters.Keys + {signature}
    ensures RecordSend(b, signature, record).sent.Keys == b.sent.Keys + {signature}
  {
  }

  lemma WaitersSplitCall(log: seq<Event>, e: Event, b: Book, b': Book)
    requires WaitersSplit(log, b) && !e.Observed?
    requires e.Started? ==> b'.waiters == b.waiters && b'.sent == b.sent
    requires e.Registered? ==> FreshSignature(log, e.signature)
                               && b'.waiters.Keys == b.waiters.Keys + {e.signature}
                               && b'.sent.Keys == b.sent.Keys + {e.signature}
    ensures WaitersSplit(log + [e], b')
  {
    MismatchesStep(log, e);
    assert Mismatches(log + [e]) == Mismatches(log);
    forall s | s in Mismatches(log) ensures !FreshSignature(log + [e], s) {
      StillRegistered(log, e, s);
    }
  }

  lemma WaitersSplitStep(log: seq<Event>, e: Event)
    requires WaitersSplit(log, Replay(log))
    requires e.Registered? ==> FreshSignature(log, e.signature)
    ensures WaitersSplit(log + [e], Replay(log + [e]))
  {
    ReplayStep(log, e);
    if e.Observed? {
      WaitersSplitLanding(log, e.obs, Replay(log));
    } else {
      if e.Registered? {
        WaitersAfterSend(Replay(log), e.signature, e.record);
      }
      WaitersSplitCall(log, e, Replay(log), Replay(log + [e]));
    }
  }

  /** With unique signatures every pending send has its waiter, and the spare waiters are the mismatched sends. */
  lemma {:induction false} WaitersAreSentOrMismatched(log: seq<Event>)
    requires UniqueSignatures(log)
    ensures WaitersSplit(log, Replay(log))
  {
    if log != [] {
      UniqueExtends(log);
      WaitersAreSentOrMismatched(log[..|log| - 1]);
      WaitersSplitStep(log[..|log| - 1], log[|log| - 1]);
      assert log == log[..|log| - 1] + [log[|log| - 1]];
    }
  }

  // ----- rounds -----

  /** The ids of the rounds started, in the order they started. */
  function StartedIds(log: seq<Event>): (r: seq<string>)
    ensures |r| == StartedCount(log)
  {
    if log == [] then []
    else
      var e := log[|log| - 1];
      StartedIds(log[..|log| - 1]) + if e.Started? then [e.startedRound] else []
  }

  function StartedRounds(log: seq<Event>): set<string> {
    set id | id in StartedIds(log)
  }

  lemma {:induction false} SetOfAtMost(ids: seq<string>)
    ensures |set id | id in ids| <= |ids|
  {
    if ids != [] {
      var init, last := ids[..|ids| - 1], ids[|ids| - 1];
      SetOfAtMost(init);
      assert ids == init + [last];
      assert (set id | id in ids) == (set id | id in init) + {last};
    }
  }

  /** Every send names a round started before it. */
  ghost predicate RoundsStartedFirst(log: seq<Event>) {
    forall i :: 0 <= i < |log| && log[i].Registered? ==> log[i].record.round in StartedRounds(log[..i])
  }

  lemma {:induction false} StartedRoundsGrow(log: seq<Event>, i: nat)
    requires i <= |log|
    ensures StartedRounds(log[..i]) <= StartedRounds(log)
  {
    if i < |log| {
      StartedRoundsGrow(log[..|log| - 1], i);
      assert log[..|log| - 1][..i] == log[..i];
    } else {
      assert log[..i] == log;
    }
  }

  lemma {:induction false} CreditsComeFrom(log: seq<Event>, c: Credit) returns (j: nat)
    requires c in CreditsIn(log)
    ensures j < |log| && CreditAt(log, j) == Some(c)
  {
    j := |log| - 1;
    if CreditAt(log, j) != Some(c) {
      j := CreditsComeFrom(log[..|log| - 1], c);
      CreditAtStable(log[..|log| - 1], [log[|log| - 1]], j);
      assert log == log[..|log| - 1] + [log[|log| - 1]];
    }
  }

  lemma {:induction false} CreditedRoundsStarted(log: seq<Event>)
    requires RoundsStartedFirst(log)
    ensures RoundsOf(CreditsIn(log)) <= StartedRounds(log)
  {
    forall c | c in CreditsIn(log) ensures c.round in StartedRounds(log) {
      var j := CreditsComeFrom(log, c);
      var i := LastMention(log[..j], c.signature).value;
      assert log[..j][i] == log[i];
      StartedRoundsGrow(log, i);
    }
  }

  ghost predicate RoundsDistinct(credits: seq<Credit>) {
    forall i, j :: 0 <= i < j < |credits| ==> credits[i].round != credits[j].round
  }

  lemma RoundsOfStep(credits: seq<Credit>, c: Credit)
    ensures RoundsOf(credits + [c]) == RoundsOf(credits) + {c.round}
  {
    assert forall x :: x in credits + [c] <==> x in credits || x == c;
  }

  lemma RoundsDistinctStep(credits: seq<Credit>, c: Credit)
    ensures RoundsDistinct(credits + [c]) <==> RoundsDistinct(credits) && c.round !in RoundsOf(credits)
  {
    var all := credits + [c];
    assert forall i :: 0 <= i < |credits| ==> all[i] == credits[i];
    if c.round in RoundsOf(credits) {
      var i :| 0 <= i < |credits| && credits[i].round == c.round;
      assert all[i].round == all[|credits|].round;
    } else {
      forall i | 0 <= i < |credits| ensures credits[i].round != c.round {
        assert credits[i] in credits;
      }
    }
    if RoundsDistinct(all) {
      forall i, j | 0 <= i < j < |credits| ensures credits[i].round != credits[j].round {
        assert all[i].round != all[j].round;
      }
    }
  }

  lemma {:induction false} RoundsCount(credits: seq<Credit>)
    ensures |RoundsOf(credits)| <= |credits|
    ensures |RoundsOf(credits)| == |credits| <==> RoundsDistinct(credits)
  {
    if credits != [] {
      var init, c := credits[..|credits| - 1], credits[|credits| - 1];
      assert credits == init + [c];
      RoundsCount(init);
      RoundsOfStep(init, c);
      RoundsDistinctStep(init, c);
    }
  }

  lemma {:induction false} CreditListed(log: seq<Event>, j: nat)
    requires j < |log| && CreditAt(log, j).Some?
    ensures CreditAt(log, j).value in CreditsIn(log)
  {
    if j < |log| - 1 {
      var init, last := log[..|log| - 1], log[|log| - 1];
      assert log == init + [last];
      CreditAtStable(init, [last], j);
      CreditListed(init, j);
    }
  }

  /** Events `j` and `k` both earn credits, of one round. */
  predicate SameRoundCredits(log: seq<Event>, j: nat, k: nat)
    requires j < |log| && k < |log|
  {
    CreditAt(log, j).Some? && CreditAt(log, k).Some? && CreditAt(log, j).value.round == CreditAt(log, k).value.round
  }

  ghost predicate CreditRoundsDistinct(log: seq<Event>) {
    forall j, k :: 0 <= j < k < |log| ==> !SameRoundCredits(log, j, k)
  }

  lemma EarlierCreditsKept(init: seq<Event>, e: Event)
    ensures forall j, k :: 0 <= j < |init| && 0 <= k < |init| ==>
              SameRoundCredits(init + [e], j, k) == SameRoundCredits(init, j, k)
  {
    forall j | 0 <= j < |init| ensures CreditAt(init + [e], j) == CreditAt(init, j) {
      CreditAtStable(init, [e], j);
    }
  }

  lemma RoundCreditedEarlier(init: seq<Event>, e: Event, c: Credit)
    requires CreditAt(init + [e], |init|) == Some(c)
    ensures c.round in RoundsOf(CreditsIn(init)) <==>
            exists j :: 0 <= j < |init| && SameRoundCredits(init + [e], j, |init|)
  {
    if c.round in RoundsOf(CreditsIn(init)) {
      var d :| d in CreditsIn(init) && d.round == c.round;
      var j := CreditsComeFrom(init, d);
      CreditAtStable(init, [e], j);
      assert SameRoundCredits(init + [e], j, |init|);
    }
    if j :| 0 <= j < |init| && SameRoundCredits(init + [e], j, |init|) {
      CreditAtStable(init, [e], j);
      CreditListed(init, j);
    }
  }

  lemma CreditRoundsStep(init: seq<Event>, e: Event)
    ensures CreditRoundsDistinct(init + [e]) <==>
              CreditRoundsDistinct(init) && !exists j :: 0 <= j < |init| && SameRoundCredits(init + [e], j, |init|)
  {
    EarlierCreditsKept(init, e);
  }

  lemma {:induction false} RoundsDistinctByEvent(log: seq<Event>)
    ensures RoundsDistinct(CreditsIn(log)) <==> CreditRoundsDistinct(log)
  {
    if log != [] {
      var init, e := log[..|log| - 1], log[|log| - 1];
      assert log == init + [e];
      RoundsDistinctByEvent(init);
      CreditsInStep(init, e);
      CreditRoundsStep(init, e);
      var c := CreditAt(log, |init|);
      if c.Some? {
        RoundsDistinctStep(CreditsIn(init), c.value);
        RoundCreditedEarlier(init, e, c.value);
      } else {
        assert CreditsIn(log) == CreditsIn(init);
      }
    }
  }

  /** The send registered at `i` wins at `j`: that is its first observation, and carries its own tag. */
  ghost predicate Wins(log: seq<Event>, i: nat, j: nat) {
    && i < |log| && log[i].Registered? && FirstObservation(log, i, j)
    && Tag(log[j].obs.memo) == log[i].record.provider
  }

  /** No two sends of one round both win. */
  ghost predicate OneWinPerRound(log: seq<Event>) {
    forall i: nat, j: nat, i': nat, j': nat :: Wins(log, i, j) && Wins(log, i', j') ==>
      i == i' || log[i].record.round != log[i'].record.round
  }

  lemma WinCredits(log: seq<Event>, i: nat, j: nat)
    requires UniqueSignatures(log) && Wins(log, i, j)
    ensures CreditAt(log, j).Some? && CreditAt(log, j).value.round == log[i].record.round
  {
    CreditedExactlyOnFirstObservation(log, i, j);
  }

  lemma CreditWins(log: seq<Event>, j: nat) returns (i: nat)
    requires UniqueSignatures(log) && j < |log| && CreditAt(log, j).Some?
    ensures Wins(log, i, j) && CreditAt(log, j).value.round == log[i].record.round
  {
    i := LastMention(log[..j], log[j].obs.signature).value;
    assert log[i] == log[..j][i];
    CreditedExactlyOnFirstObservation(log, i, j);
  }

  /** With unique signatures: no round is credited twice exactly when no two sends of one round both win. */
  lemma RoundsDistinctByWins(log: seq<Event>)
    requires UniqueSignatures(log)
    ensures RoundsDistinct(CreditsIn(log)) <==> OneWinPerRound(log)
  {
    RoundsDistinctByEvent(log);
    if CreditRoundsDistinct(log) {
      forall i: nat, j: nat, i': nat, j': nat | Wins(log, i, j) && Wins(log, i', j')
        ensures i == i' || log[i].record.round != log[i'].record.round
      {
        WinCredits(log, i, j);
        WinCredits(log, i', j');
        assert log[i].record.round == log[i'].record.round ==>
            SameRoundCredits(log, j, j') && SameRoundCredits(log, j', j);
      }
    }
    if OneWinPerRound(log) {
      forall j, k | 0 <= j < k < |log| ensures !SameRoundCredits(log, j, k) {
        if SameRoundCredits(log, j, k) {
          var i := CreditWins(log, j);
          var i' := CreditWins(log, k);
        }
      }
    }
  }

  /** Landed rounds are bounded by the rounds attempted and by the wins, and equal the wins
      exactly when no round was credited twice. */
  lemma {:induction false} LandedRoundsBounded(log: seq<Event>)
    ensures RoundsStartedFirst(log) ==> |Replay(log).landedRounds| <= Replay(log).roundsAttempted
    ensures |Replay(log).landedRounds| <= SumLanded(Replay(log).metrics)
    ensures |Replay(log).landedRounds| == SumLanded(Replay(log).metrics) <==> RoundsDistinct(CreditsIn(log))
  {
    RoundsRefineLog(log);
    TotalsAreCredits(log);
    RoundsCount(CreditsIn(log));
    if RoundsStartedFirst(log) {
      CreditedRoundsStarted(log);
      SetOfAtMost(StartedIds(log));
      SubsetSize(RoundsOf(CreditsIn(log)), StartedRounds(log));
    }
  }

  lemma SubsetSize(a: set<string>, b: set<string>)
    requires a <= b
    ensures |a| <= |b|
  {
    assert b == a + (b - a);
  }

  // ----- printed win shares -----

  function WinShare(landed: nat, totalLanded: nat): real {
    if totalLanded > 0 then landed as real / totalLanded as real * 100.0 else 0.0
  }

  function SumShares(providers: seq<ProviderSummary>, totalLanded: nat): real {
    if providers == [] then 0.0 else WinShare(providers[0].landed, totalLanded) + SumShares(providers[1..], totalLanded)
  }

  function SumWins(providers: seq<ProviderSummary>): nat {
    if providers == [] then 0 else providers[0].landed + SumWins(providers[1..])
  }

  lemma {:induction false} SharesOfWins(providers: seq<ProviderSummary>, totalLanded: nat)
    ensures SumShares(providers, totalLanded) == WinShare(SumWins(providers), totalLanded)
  {
    if providers != [] {
      SharesOfWins(providers[1..], totalLanded);
      if totalLanded > 0 {
        QuotientSum(providers[0].landed as real, SumWins(providers[1..]) as real, totalLanded as real);
      }
    }
  }

  lemma {:induction false} WinsOfListing(providers: seq<ProviderSummary>, metrics: map<string, ProviderMetrics>)
    requires ByName(providers)
    requires forall s :: s in providers <==> s.name in metrics && s == FromMetrics(s.name, metrics[s.name])
    ensures SumWins(providers) == SumLanded(metrics)
  {
    if providers == [] {
      assert forall name :: name in metrics ==> FromMetrics(name, metrics[name]) in providers;
      assert metrics == map[];
    } else {
      var p := providers[0];
      assert p in providers;
      SumLandedSplit(metrics, p.name);
      forall s
        ensures s in providers[1..] <==>
                s.name in metrics - {p.name} && s == FromMetrics(s.name, (metrics - {p.name})[s.name])
      {
        TailMembers(providers, s);
      }
      WinsOfListing(providers[1..], metrics - {p.name});
    }
  }

  /** The printed win shares add up to 100% exactly when no landed round was credited twice. */
  lemma {:induction false} WinSharesSumTo100(log: seq<Event>, r: LandingSummary)
    requires Summarises(r, Replay(log)) && r.totalLanded > 0
    ensures SumShares(r.providers, r.totalLanded) >= 100.0
    ensures SumShares(r.providers, r.totalLanded) == 100.0 <==> RoundsDistinct(CreditsIn(log))
    ensures UniqueSignatures(log) ==> (SumShares(r.providers, r.totalLanded) == 100.0 <==> OneWinPerRound(log))
  {
    LandedRoundsBounded(log);
    WinsOfListing(r.providers, Replay(log).metrics);
    SharesOfWins(r.providers, r.totalLanded);
    ShareIs100(SumWins(r.providers), r.totalLanded);
    if UniqueSignatures(log) {
      RoundsDistinctByWins(log);
    }
  }

  lemma ShareIs100(wins: nat, total: nat)
    requires 0 < total <= wins
    ensures WinShare(wins, total) >= 100.0
    ensures WinShare(wins, total) == 100.0 <==> wins == total
  {
    var q, t := wins as real / total as real, total as real;
    if wins == total {
      QuotientIs(t, t, 1.0);
    } else if q <= 1.0 {
      ScaleMonotone(q, 1.0, t);
      assert false;
    }
  }

  // ----- one round credited twice -----

  /** One round in which two providers' sends both land. */
  function BothLand(round: string, p: string, q: string, a: string, b: string): seq<Event> {
    [Started(round), Registered(a, SendRecord(p, 0, round)), Registered(b, SendRecord(q, 0, round)),
     Observed(Observation(a, p + ['|'], 0)), Observed(Observation(b, q + ['|'], 0))]
  }

  lemma TagOf(name: string)
    requires '|' !in name
    ensures Tag(name + ['|']) == name
  {
    Text.BeforeInvertsJoin(name, '|', []);
    assert name + ['|'] + [] == name + ['|'];
  }

  lemma TwoObserved(log: seq<Event>, c: Credit, d: Credit)
    requires |log| == 5 && forall i :: 0 <= i < 3 ==> !log[i].Observed?
    requires CreditAt(log, 3) == Some(c) && CreditAt(log, 4) == Some(d)
    ensures CreditsIn(log) == [c, d]
  {
    assert log[..4] == log[..3] + [log[3]] && log == log[..4] + [log[4]];
    CreditAtStable(log[..4], [log[4]], 3);
    CreditsInStep(log[..4], log[4]);
    CreditsInStep(log[..3], log[3]);
    NothingCreditedYet(log[..3]);
  }

  lemma BothLandCredits(round: string, p: string, q: string, a: string, b: string)
    requires a != b && '|' !in p && '|' !in q
    ensures CreditsIn(BothLand(round, p, q, a, b)) == [Credit(a, p, round, 0.0), Credit(b, q, round, 0.0)]
    ensures !RoundsDistinct(CreditsIn(BothLand(round, p, q, a, b)))
  {
    var log := BothLand(round, p, q, a, b);
    TagOf(p);
    TagOf(q);
    CreditedExactlyOnFirstObservation(log, 1, 3);
    CreditedExactlyOnFirstObservation(log, 2, 4);
    TwoObserved(log, Credit(a, p, round, 0.0), Credit(b, q, round, 0.0));
    assert CreditsIn(log)[0].round == CreditsIn(log)[1].round;
  }

  lemma {:induction false} NothingCreditedYet(log: seq<Event>)
    requires forall i :: 0 <= i < |log| ==> !log[i].Observed?
    ensures CreditsIn(log) == []
  {
    if log != [] {
      NothingCreditedYet(log[..|log| - 1]);
    }
  }

  lemma OneRoundOfTwo(c: Credit, d: Credit)
    requires c.round == d.round
    ensures RoundsOf([c, d]) == {c.round}
  {
    assert c in [c, d];
  }

  lemma TwoOfOne()
    ensures WinShare(2, 1) == 200.0
  {
  }

  /** Two credits of one round make the printed shares 200%. */
  lemma SharesOfTwo(log: seq<Event>, r: LandingSummary, c: Credit, d: Credit)
    requires CreditsIn(log) == [c, d] && c.round == d.round && Summarises(r, Replay(log))
    ensures r.totalLanded == 1 && SumShares(r.providers, r.totalLanded) == 200.0
  {
    OneRoundOfTwo(c, d);
    RoundsRefineLog(log);
    TotalsAreCredits(log);
    WinsOfListing(r.providers, Replay(log).metrics);
    SharesOfWins(r.providers, 1);
    TwoOfOne();
  }
}
