/** The landing book itself, updated in place, and the log of the calls made on it. */
module LandingBooks {
  import opened OrderStatistics
  import opened Ledger
  import opened LedgerLog
  import opened Summary
  import opened Visiting
  import Text

  class LandingBook {
    var sent: map<string, SendRecord>
    var metrics: map<string, ProviderMetrics>
    var roundsAttempted: nat
    var landedRounds: set<string>
    var waiters: map<string, nat>
    var roundNotifiers: map<string, nat>
    var oneshots: seq<Oneshot>
    var watches: seq<Watch>
    ghost var log: seq<Event>

    ghost function Value(): Book
      reads this
    {
      Book(sent, metrics, roundsAttempted, landedRounds, waiters, roundNotifiers, oneshots, watches)
    }

    /** The fields are what replaying the log of calls gives. */
    ghost predicate Valid()
      reads this
    {
      Value() == Replay(log)
    }

    constructor ()
      ensures Valid() && log == []
    {
      sent, metrics, roundsAttempted, landedRounds := map[], map[], 0, {};
      waiters, roundNotifiers, oneshots, watches := map[], map[], [], [];
      log := [];
    }

    /** `round_notifiers.entry(round).or_insert_with(..)` */
    method EnsureNotifier(round: string)
      requires Value().WellFormed()
      modifies `roundNotifiers, `watches
      ensures Value() == WithNotifier(old(Value()), round)
    {
      if round !in roundNotifiers {
        roundNotifiers := roundNotifiers[round := |watches|];
        watches := watches + [NEW_WATCH];
      }
    }

    /** The body of `record_send`. */
    method InsertSend(signature: string, record: SendRecord) returns (ack: nat, roundChannel: nat, seen: nat)
      requires Value().WellFormed()
      modifies `sent, `metrics, `waiters, `roundNotifiers, `oneshots, `watches
      ensures Value() == Ledger.RecordSend(old(Value()), signature, record)
      ensures signature in waiters && waiters[signature] == ack < |oneshots| && oneshots[ack] == Pending
      ensures record.round in roundNotifiers && roundNotifiers[record.round] == roundChannel < |watches|
      ensures seen == watches[roundChannel].version
      ensures ack == |old(oneshots)|
    {
      EnsureNotifier(record.round);
      sent := sent[signature := record];
      if record.provider !in metrics {
        metrics := metrics[record.provider := ProviderMetrics(0, [])];
      }
      assert metrics == old(metrics)[record.provider := MetricsOf(old(Value()), record.provider)];
      if signature in waiters {
        oneshots := oneshots[waiters[signature] := SenderDropped];
      }
      ack := |oneshots|;
      waiters := waiters[signature := ack];
      oneshots := oneshots + [Pending];
      roundChannel := roundNotifiers[record.round];
      seen := watches[roundChannel].version;
    }

    /** `ack` and `roundChannel` number the channels the sender waits on; `seen` is the round's version so far. */
    method RecordSend(signature: string, provider: string, sentElapsed: nat, round: string)
      returns (ack: nat, roundChannel: nat, seen: nat)
      requires Valid()
      modifies this
      ensures Valid() && log == old(log) + [Registered(signature, SendRecord(provider, sentElapsed, round))]
      ensures signature in waiters && waiters[signature] == ack < |oneshots| && oneshots[ack] == Pending
      ensures round in roundNotifiers && roundNotifiers[round] == roundChannel < |watches|
      ensures seen == watches[roundChannel].version
      ensures ack == |old(oneshots)|
    {
      var record := SendRecord(provider, sentElapsed, round);
      ReplayStep(log, Registered(signature, record));
      log := log + [Registered(signature, record)];
      ack, roundChannel, seen := InsertSend(signature, record);
    }

    method StartRound(round: string)
      requires Valid()
      modifies this
      ensures Valid() && log == old(log) + [Started(round)]
      ensures roundsAttempted == old(roundsAttempted) + 1 && round in roundNotifiers
    {
      ReplayStep(log, Started(round));
      log := log + [Started(round)];
      CountRound(round);
    }

    /** The body of `start_round`. */
    method CountRound(round: string)
      requires Value().WellFormed()
      modifies `roundsAttempted, `roundNotifiers, `watches
      ensures Value() == Ledger.StartRound(old(Value()), round)
    {
      roundsAttempted := roundsAttempted + 1;
      EnsureNotifier(round);
    }

    /** `waiters.remove(signature)`, and firing the sender it held */
    method NotifyWaiter(signature: string)
      requires Value().WellFormed()
      modifies `waiters, `oneshots
      ensures Value() == FireWaiter(old(Value()), signature)
    {
      if signature in waiters {
        oneshots := oneshots[waiters[signature] := Fired];
        waiters := waiters - {signature};
      }
    }

    /** `round_notifiers.remove(round)`, and sending `true` through it */
    method NotifyRound(round: string)
      requires Value().WellFormed()
      modifies `roundNotifiers, `watches
      ensures Value() == FireRound(old(Value()), round)
    {
      if round in roundNotifiers {
        var id := roundNotifiers[round];
        watches := watches[id := Watch(watches[id].version + 1, true, false)];
        roundNotifiers := roundNotifiers - {round};
      }
    }

    /** The body of `record_landing`. */
    method SettleSend(obs: Observation) returns (credited: bool)
      requires Value().WellFormed()
      modifies `sent, `metrics, `landedRounds, `waiters, `roundNotifiers, `oneshots, `watches
      ensures Value() == Ledger.RecordLanding(old(Value()), obs)
      ensures credited <==> Credits(old(Value()), obs)
    {
      if obs.signature !in sent {
        return false;
      }
      var send := sent[obs.signature];
      sent := sent - {obs.signature};
      if Text.Before(obs.memo, '|') != send.provider {
        return false;
      }
      var latencyMs := LatencyMs(send.sentElapsed, obs.elapsed);
      var entry := if send.provider in metrics then metrics[send.provider] else ProviderMetrics(0, []);
      metrics := metrics[send.provider := ProviderMetrics(entry.landed + 1, entry.latenciesMs + [latencyMs])];
      landedRounds := landedRounds + {send.round};
      NotifyWaiter(obs.signature);
      NotifyRound(send.round);
      return true;
    }

    /** Returns whether the observation earned a credit; the scan of the log says which do. */
    method RecordLanding(obs: Observation) returns (credited: bool)
      requires Valid()
      modifies this
      ensures Valid() && log == old(log) + [Observed(obs)]
      ensures credited <==> CreditAt(log, |log| - 1).Some?
    {
      CreditStep(log, obs);
      ReplayStep(log, Observed(obs));
      log := log + [Observed(obs)];
      credited := SettleSend(obs);
    }

    /** `order` is the order in which the hash map of metrics happens to be visited. */
    method Finalize(order: seq<string>) returns (summary: LandingSummary)
      requires Valid()
      requires Lists(order, metrics.Keys)
      ensures Summarises(summary, Value())
    {
      var providers: seq<ProviderSummary> := [];
      var latencies: seq<real> := [];
      ghost var rest := metrics;
      for i := 0 to |order|
        invariant Visited(order, i, metrics, rest, providers)
        invariant multiset(latencies) + AllLatencies(rest) == AllLatencies(metrics)
      {
        VisitNext(order, i, metrics, rest, providers);
        var s := FromMetrics(order[i], metrics[order[i]]);
        AllLatenciesSplit(rest, order[i]);
        rest := rest - {order[i]};
        latencies := latencies + s.latenciesMs;
        providers := providers + [s];
      }
      AllVisited(order, metrics, rest, providers);
      SortedProviders(order, providers, metrics);
      summary := LandingSummary(SortByName(providers), |landedRounds|, ComputeOverall(latencies), roundsAttempted);
      assert multiset(latencies) == AllLatencies(metrics);
    }
  }

  /** The first `i` names of the order are summarised; the others are still in `rest`. */
  ghost predicate Visited(order: seq<string>, i: nat, metrics: map<string, ProviderMetrics>,
                          rest: map<string, ProviderMetrics>, providers: seq<ProviderSummary>)
  {
    && |providers| == i <= |order|
    && (forall k :: 0 <= k < i ==> order[k] in metrics && providers[k] == FromMetrics(order[k], metrics[order[k]]))
    && (forall k :: 0 <= k < |order| ==> (order[k] in rest <==> k >= i))
    && (forall p :: p in rest ==> p in metrics && rest[p] == metrics[p])
  }

  lemma VisitNext(order: seq<string>, i: nat, metrics: map<string, ProviderMetrics>,
                  rest: map<string, ProviderMetrics>, providers: seq<ProviderSummary>)
    requires Lists(order, metrics.Keys)
    requires i < |order| && Visited(order, i, metrics, rest, providers)
    ensures order[i] in metrics && order[i] in rest && rest[order[i]] == metrics[order[i]]
    ensures Visited(order, i + 1, metrics, rest - {order[i]}, providers + [FromMetrics(order[i], metrics[order[i]])])
  {
  }

  lemma AllVisited(order: seq<string>, metrics: map<string, ProviderMetrics>,
                   rest: map<string, ProviderMetrics>, providers: seq<ProviderSummary>)
    requires Lists(order, metrics.Keys)
    requires Visited(order, |order|, metrics, rest, providers)
    ensures rest == map[]
  {
  }

  lemma SortedProviders(order: seq<string>, providers: seq<ProviderSummary>, metrics: map<string, ProviderMetrics>)
    requires Lists(order, metrics.Keys)
    requires |providers| == |order|
    requires forall k :: 0 <= k < |order| ==>
               order[k] in metrics && providers[k] == FromMetrics(order[k], metrics[order[k]])
    ensures DistinctNames(providers)
    ensures forall s :: s in SortByName(providers) <==> s.name in metrics && s == FromMetrics(s.name, metrics[s.name])
  {
    forall s ensures s in SortByName(providers) <==> s.name in metrics && s == FromMetrics(s.name, metrics[s.name]) {
      assert s in SortByName(providers) <==> s in multiset(SortByName(providers));
      assert s in providers <==> s in multiset(providers);
      ListedProvider(order, providers, metrics, s);
    }
  }

  lemma ListedProvider(order: seq<string>, providers: seq<ProviderSummary>, metrics: map<string, ProviderMetrics>,
                       s: ProviderSummary)
    requires Lists(order, metrics.Keys)
    requires |providers| == |order|
    requires forall k :: 0 <= k < |order| ==>
               order[k] in metrics && providers[k] == FromMetrics(order[k], metrics[order[k]])
    ensures s in providers <==> s.name in metrics && s == FromMetrics(s.name, metrics[s.name])
  {
    if s.name in metrics {
      var k :| 0 <= k < |order| && order[k] == s.name;
      assert providers[k] in providers;
    }
  }
}
