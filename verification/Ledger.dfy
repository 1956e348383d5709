/**
 * The state behind the landing book's mutex, and what each locked method does to it.
 * A method holds the lock from its first access to its return, so each is one step here.
 */
module Ledger {
  import Text

  datatype SendRecord = SendRecord(provider: string, sentElapsed: nat, round: string)

  datatype ProviderMetrics = ProviderMetrics(landed: nat, latenciesMs: seq<real>)

  /** A one-shot channel, seen from its receiver. */
  datatype Oneshot = Pending | Fired | SenderDropped

  /** A watch channel: `open` while a sender exists. */
  datatype Watch = Watch(version: nat, value: bool, open: bool)

  const NEW_WATCH := Watch(0, false, true)

  datatype Observation = Observation(signature: string, memo: string, elapsed: nat)

  /** Channels are allocated at the end of `oneshots` and `watches`; the maps hold their numbers. */
  datatype Book = Book(
    sent: map<string, SendRecord>,
    metrics: map<string, ProviderMetrics>,
    roundsAttempted: nat,
    landedRounds: set<string>,
    waiters: map<string, nat>,
    roundNotifiers: map<string, nat>,
    oneshots: seq<Oneshot>,
    watches: seq<Watch>)
  {
    ghost predicate WellFormed() {
      && (forall s :: s in waiters ==> waiters[s] < |oneshots|)
      && (forall r :: r in roundNotifiers ==> roundNotifiers[r] < |watches|)
    }
  }

  const EMPTY_BOOK := Book(map[], map[], 0, {}, map[], map[], [], [])

  /** Elapsed times are nanoseconds; the subtraction saturates at zero. */
  function LatencyMs(sent: nat, observed: nat): real {
    (if observed < sent then 0 else observed - sent) as real / 1_000_000.0
  }

  /** `ms` milliseconds have gone by from `sent` to `observed`, none if it was observed before. */
  predicate IsLatency(ms: real, sent: nat, observed: nat) {
    if sent <= observed then ms * 1_000_000.0 == (observed - sent) as real else ms == 0.0
  }

  lemma LatencyMeans(sent: nat, observed: nat)
    ensures IsLatency(LatencyMs(sent, observed), sent, observed)
  {
  }

  function Tag(memo: string): string {
    Text.Before(memo, '|')
  }

  /** `round_notifiers.entry(round).or_insert_with(..)` */
  function WithNotifier(b: Book, round: string): (r: Book)
    requires b.WellFormed()
    ensures r.WellFormed() && round in r.roundNotifiers
  {
    if round in b.roundNotifiers then b
    else b.(roundNotifiers := b.roundNotifiers[round := |b.watches|], watches := b.watches + [NEW_WATCH])
  }

  /** `metrics.entry(provider).or_default()` */
  function MetricsOf(b: Book, provider: string): ProviderMetrics {
    if provider in b.metrics then b.metrics[provider] else ProviderMetrics(0, [])
  }

  function StartRound(b: Book, round: string): (r: Book)
    requires b.WellFormed()
    ensures r.WellFormed()
  {
    WithNotifier(b, round).(roundsAttempted := b.roundsAttempted + 1)
  }

  /** Overwriting a waiter drops the sender it held. */
  function RecordSend(b: Book, signature: string, record: SendRecord): (r: Book)
    requires b.WellFormed()
    ensures r.WellFormed()
  {
    var n := WithNotifier(b, record.round);
    var oneshots := if signature in n.waiters then n.oneshots[n.waiters[signature] := SenderDropped] else n.oneshots;
    n.(sent := n.sent[signature := record],
       metrics := n.metrics[record.provider := MetricsOf(n, record.provider)],
       waiters := n.waiters[signature := |oneshots|],
       oneshots := oneshots + [Pending])
  }

  predicate Credits(b: Book, obs: Observation) {
    obs.signature in b.sent && Tag(obs.memo) == b.sent[obs.signature].provider
  }

  function FireWaiter(b: Book, signature: string): (r: Book)
    requires b.WellFormed()
    ensures r.WellFormed()
  {
    if signature !in b.waiters then b
    else b.(waiters := b.waiters - {signature}, oneshots := b.oneshots[b.waiters[signature] := Fired])
  }

  /** The sender is removed from the map, sends `true` once, and is gone. */
  function FireRound(b: Book, round: string): (r: Book)
    requires b.WellFormed()
    ensures r.WellFormed()
  {
    if round !in b.roundNotifiers then b
    else
      var id := b.roundNotifiers[round];
      b.(roundNotifiers := b.roundNotifiers - {round},
         watches := b.watches[id := Watch(b.watches[id].version + 1, true, false)])
  }

  function RecordLanding(b: Book, obs: Observation): (r: Book)
    requires b.WellFormed()
    ensures r.WellFormed()
  {
    if obs.signature !in b.sent then b
    else
      var send := b.sent[obs.signature];
      var taken := b.(sent := b.sent - {obs.signature});
      if !Credits(b, obs) then taken
      else
        var m := MetricsOf(b, send.provider);
        var m' := ProviderMetrics(m.landed + 1, m.latenciesMs + [LatencyMs(send.sentElapsed, obs.elapsed)]);
        var counted := taken.(metrics := b.metrics[send.provider := m'],
                              landedRounds := b.landedRounds + {send.round});
        FireRound(FireWaiter(counted, obs.signature), send.round)
  }

  // ----- the log of locked calls -----

  datatype Event =
    | Started(startedRound: string)
    | Registered(signature: string, record: SendRecord)
    | Observed(obs: Observation)

  function Apply(b: Book, e: Event): (r: Book)
    requires b.WellFormed()
    ensures r.WellFormed()
  {
    match e
    case Started(round) => StartRound(b, round)
    case Registered(signature, record) => RecordSend(b, signature, record)
    case Observed(obs) => RecordLanding(b, obs)
  }

  /** The book after the logged calls, in the order they took the lock. */
  function Replay(log: seq<Event>): (b: Book)
    ensures b.WellFormed()
  {
    if log == [] then EMPTY_BOOK else Apply(Replay(log[..|log| - 1]), log[|log| - 1])
  }

  lemma ReplayStep(log: seq<Event>, e: Event)
    ensures Replay(log + [e]) == Apply(Replay(log), e)
  {
    assert (log + [e])[..|log|] == log;
  }
}
