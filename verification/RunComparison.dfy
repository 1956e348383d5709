/**
 * What a run comparison has to be, said without any iteration order: counts are sizes of sets of
 * signatures, and percentiles are figures of bags of delays.
 */
module RunComparison {
  import opened Wrappers
  import opened OrderStatistics
  import Accumulator
  import opened Ledger
  import Text

  type Sightings = map<string, Accumulator.TransactionData>

  type Comparator = map<string, Sightings>

  // ----- one signature -----

  predicate Complete(d: Sightings, producers: nat) {
    producers == 0 || |d| == producers
  }

  predicate Historical(d: Sightings) {
    exists e :: e in d && d[e].wallclockSecs < d[e].startWallclockSecs
  }

  predicate Counted(d: Sightings, producers: nat) {
    Complete(d, producers) && !Historical(d) && d != map[]
  }

  predicate Backfilled(d: Sightings, producers: nat) {
    Complete(d, producers) && Historical(d)
  }

  predicate Earliest(d: Sightings, e: string) {
    e in d && forall f :: f in d ==> d[e].elapsed <= d[f].elapsed
  }

  lemma {:induction false} EarliestExists(d: Sightings)
    requires d != map[]
    ensures exists e :: Earliest(d, e)
    decreases |d|
  {
    var f :| f in d;
    var rest := d - {f};
    assert forall h :: h in d ==> h == f || h in rest;
    if rest == map[] {
      assert Earliest(d, f);
    } else {
      EarliestExists(rest);
      var g :| Earliest(rest, g);
      assert Earliest(d, if rest[g].elapsed < d[f].elapsed then g else f);
    }
  }

  ghost function Least(d: Sightings): nat
    requires d != map[]
  {
    EarliestExists(d);
    var e :| Earliest(d, e);
    d[e].elapsed
  }

  lemma LeastIs(d: Sightings, e: string)
    requires Earliest(d, e)
    ensures Least(d) == d[e].elapsed
  {
    EarliestExists(d);
    var f :| Earliest(d, f) && Least(d) == d[f].elapsed;
  }

  /** The delays of some endpoints behind `first`. */
  ghost function Spread(d: Sightings, first: nat, endpoints: set<string>): multiset<real>
    requires endpoints <= d.Keys
  {
    if endpoints == {} then multiset{}
    else
      var e :| e in endpoints;
      multiset{LatencyMs(first, d[e].elapsed)} + Spread(d, first, endpoints - {e})
  }

  lemma {:induction false} SpreadSplit(d: Sightings, first: nat, endpoints: set<string>, e: string)
    requires endpoints <= d.Keys && e in endpoints
    ensures Spread(d, first, endpoints) == multiset{LatencyMs(first, d[e].elapsed)} + Spread(d, first, endpoints - {e})
    decreases |endpoints|
  {
    var f :| f in endpoints
             && Spread(d, first, endpoints) ==
                multiset{LatencyMs(first, d[f].elapsed)} + Spread(d, first, endpoints - {f});
    if f != e {
      SpreadSplit(d, first, endpoints - {f}, e);
      SpreadSplit(d, first, endpoints - {e}, f);
      assert endpoints - {f} - {e} == endpoints - {e} - {f};
    }
  }

  lemma {:induction false} SpreadSize(d: Sightings, first: nat, endpoints: set<string>)
    requires endpoints <= d.Keys
    ensures |Spread(d, first, endpoints)| == |endpoints|
    decreases |endpoints|
  {
    if endpoints != {} {
      var e :| e in endpoints;
      SpreadSplit(d, first, endpoints, e);
      SpreadSize(d, first, endpoints - {e});
    }
  }

  // ----- the whole comparator -----

  function CountedSet(c: Comparator, producers: nat): set<string> {
    set s | s in c && Counted(c[s], producers)
  }

  function BackfilledSet(c: Comparator, producers: nat): set<string> {
    set s | s in c && Backfilled(c[s], producers)
  }

  /** What one signature adds to the delays of endpoint `e`. */
  ghost function OwnDelay(d: Sightings, producers: nat, e: string): multiset<real> {
    if Counted(d, producers) && e in d then multiset{LatencyMs(Least(d), d[e].elapsed)} else multiset{}
  }

  /** The sum of the bags filed under each signature. */
  ghost function SumOf(m: map<string, multiset<real>>): multiset<real>
    decreases |m|
  {
    if m == map[] then multiset{}
    else
      var s :| s in m;
      m[s] + SumOf(m - {s})
  }

  lemma {:induction false} SumOfSplit(m: map<string, multiset<real>>, s: string)
    requires s in m
    ensures SumOf(m) == m[s] + SumOf(m - {s})
    decreases |m|
  {
    var t :| t in m && SumOf(m) == m[t] + SumOf(m - {t});
    if t != s {
      SumOfSplit(m - {t}, s);
      SumOfSplit(m - {s}, t);
      assert m - {t} - {s} == m - {s} - {t};
    }
  }

  ghost function OwnDelays(c: Comparator, producers: nat, e: string): map<string, multiset<real>> {
    map s | s in c :: OwnDelay(c[s], producers, e)
  }

  ghost function EndpointDelays(c: Comparator, producers: nat, e: string): multiset<real> {
    SumOf(OwnDelays(c, producers, e))
  }

  /** One earliest endpoint chosen for each counted signature. */
  ghost predicate Winners(c: Comparator, producers: nat, w: map<string, string>) {
    forall s :: s in c && Counted(c[s], producers) ==> s in w && Earliest(c[s], w[s])
  }

  /** What one signature with winner `w` adds to the overall delays: its known endpoints but the winner. */
  ghost function OthersDelays(d: Sightings, producers: nat, known: set<string>, w: string): multiset<real> {
    if Counted(d, producers) then Spread(d, Least(d), d.Keys * known - {w}) else multiset{}
  }

  ghost function WinnerOf(w: map<string, string>, s: string): string {
    if s in w then w[s] else ""
  }

  ghost function DelaysBehind(c: Comparator, producers: nat, known: set<string>, w: map<string, string>)
    : map<string, multiset<real>>
  {
    map s | s in c :: OthersDelays(c[s], producers, known, WinnerOf(w, s))
  }

  ghost function OverallDelays(c: Comparator, producers: nat, known: set<string>,
                               w: map<string, string>): multiset<real> {
    SumOf(DelaysBehind(c, producers, known, w))
  }

  // ----- the summary -----

  datatype EndpointSummary = EndpointSummary(
    name: string, firstShare: real, p50: Option<real>, p95: Option<real>, p99: Option<real>,
    valid: nat, firsts: nat, backfill: nat)

  datatype OverallStats = OverallStats(p50: Option<real>, p90: Option<real>, p95: Option<real>, p99: Option<real>)

  datatype RunSummary = RunSummary(
    endpoints: seq<EndpointSummary>, fastest: Option<string>, hasData: bool,
    total: nat, backfillSignatures: nat, overall: OverallStats)

  function Figure(delays: seq<real>, p: real): Option<real>
    requires p <= 1.0
  {
    if delays == [] then None else Some(At(Sort(delays), p))
  }

  function BuildOverall(delays: seq<real>): OverallStats {
    OverallStats(Figure(delays, 0.50), Figure(delays, 0.90), Figure(delays, 0.95), Figure(delays, 0.99))
  }

  function Share(firsts: nat, total: nat): real {
    if total > 0 then firsts as real / total as real else 0.0
  }

  lemma FigureCanonical(a: seq<real>, b: seq<real>, p: real)
    requires multiset(a) == multiset(b) && p <= 1.0
    ensures Figure(a, p) == Figure(b, p)
  {
    SortCanonical(a, b);
    assert |multiset(a)| == |multiset(b)|;
  }

  lemma FigureMeans(delays: seq<real>, p: real)
    requires 0.0 <= p <= 1.0
    ensures IsFigure(Figure(delays, p), delays, p)
  {
    if delays != [] {
      PercentileMeans(delays, p);
    }
  }

  datatype Ordering = Before | Same | After

  function CompareNames(a: string, b: string): Ordering {
    if Text.Less(a, b) then Before else if Text.Less(b, a) then After else Same
  }

  function CompareLatency(a: EndpointSummary, b: EndpointSummary): Ordering {
    match (a.p50, b.p50)
    case (Some(l), Some(r)) => if l < r then Before else if l > r then After else CompareNames(a.name, b.name)
    case (Some(_), None) => Before
    case (None, Some(_)) => After
    case (None, None) => CompareNames(a.name, b.name)
  }

  /** `a` is no slower than `b`, and has the lesser name if the medians are the same; no median is slowest. */
  predicate ComesFirst(a: EndpointSummary, b: EndpointSummary) {
    && (b.p50.Some? ==> a.p50.Some? && a.p50.value <= b.p50.value)
    && (a.p50 == b.p50 ==> Text.Less(a.name, b.name))
  }

  /** A strict total order on summaries with different names: the lesser median first, then the lesser name. */
  lemma CompareLatencyIsStrictTotal(a: EndpointSummary, b: EndpointSummary, c: EndpointSummary)
    ensures CompareLatency(a, b) == Same <==> a.name == b.name && a.p50 == b.p50
    ensures CompareLatency(a, b) == Before <==> ComesFirst(a, b)
    ensures CompareLatency(a, b) == Before <==> CompareLatency(b, a) == After
    ensures CompareLatency(a, b) == Before && CompareLatency(b, c) == Before ==> CompareLatency(a, c) == Before
  {
    Text.LessTotal(a.name, b.name);
    Text.LessIrreflexive(a.name);
    if Text.Less(a.name, b.name) && Text.Less(b.name, a.name) {
      Text.LessTransitive(a.name, b.name, a.name);
    }
    if Text.Less(a.name, c.name) && Text.Less(c.name, a.name) {
      Text.LessTransitive(a.name, c.name, a.name);
    }
    if Text.Less(a.name, b.name) && Text.Less(b.name, c.name) {
      Text.LessTransitive(a.name, b.name, c.name);
    }
  }

  function ValidSet(c: Comparator, producers: nat, e: string): set<string> {
    set s | s in c && Counted(c[s], producers) && e in c[s]
  }

  function BackfillSet(c: Comparator, producers: nat, e: string): set<string> {
    set s | s in c && Backfilled(c[s], producers) && e in c[s]
  }

  ghost predicate IsEndpointSummary(s: EndpointSummary, c: Comparator, producers: nat, w: map<string, string>) {
    && s.valid == |ValidSet(c, producers, s.name)|
    && s.backfill == |BackfillSet(c, producers, s.name)|
    && s.firsts == |FirstsOf(c, producers, w, s.name)|
    && s.firstShare == Share(s.firsts, |CountedSet(c, producers)|)
    && exists delays: seq<real> :: multiset(delays) == EndpointDelays(c, producers, s.name)
                                   && HasFigures(s, delays)
  }

  predicate HasFigures(s: EndpointSummary, delays: seq<real>) {
    s.p50 == Figure(delays, 0.50) && s.p95 == Figure(delays, 0.95) && s.p99 == Figure(delays, 0.99)
  }

  ghost function FirstsOf(c: Comparator, producers: nat, w: map<string, string>, e: string): set<string> {
    set t | t in c && Counted(c[t], producers) && WinnerOf(w, t) == e
  }

  ghost predicate IsBest(endpoints: seq<EndpointSummary>, best: EndpointSummary) {
    && best in endpoints && best.valid > 0
    && forall s :: s in endpoints && s.valid > 0 && s != best ==> ComesFirst(best, s)
  }

  /** The one endpoint with data that comes before every other with data. */
  ghost predicate IsFastest(endpoints: seq<EndpointSummary>, fastest: Option<string>) {
    match fastest
    case None => forall s :: s in endpoints ==> s.valid == 0
    case Some(name) =>
      exists best :: IsBest(endpoints, best) && best.name == name
  }

  ghost predicate IsOverall(o: OverallStats, delays: multiset<real>) {
    exists listed: seq<real> :: multiset(listed) == delays && o == BuildOverall(listed)
  }

  /** A share of the total, zero when there is none. */
  predicate IsShare(share: real, firsts: nat, total: nat) {
    if total > 0 then share * total as real == firsts as real else share == 0.0
  }

  lemma ShareMeans(firsts: nat, total: nat)
    ensures IsShare(Share(firsts, total), firsts, total)
  {
    if total > 0 {
      QuotientTimes(firsts as real, total as real);
    }
  }

  /** A bag of delays, and the figures reported of it at their fractions. */
  lemma OverallMeans(o: OverallStats, delays: multiset<real>) returns (listed: seq<real>)
    requires IsOverall(o, delays)
    ensures multiset(listed) == delays
    ensures IsFigure(o.p50, listed, 0.50) && IsFigure(o.p90, listed, 0.90)
    ensures IsFigure(o.p95, listed, 0.95) && IsFigure(o.p99, listed, 0.99)
  {
    listed :| multiset(listed) == delays && o == BuildOverall(listed);
    FigureMeans(listed, 0.50);
    FigureMeans(listed, 0.90);
    FigureMeans(listed, 0.95);
    FigureMeans(listed, 0.99);
  }

  lemma EndpointMeans(s: EndpointSummary, c: Comparator, producers: nat, w: map<string, string>)
    returns (listed: seq<real>)
    requires IsEndpointSummary(s, c, producers, w)
    ensures multiset(listed) == EndpointDelays(c, producers, s.name)
    ensures IsFigure(s.p50, listed, 0.50) && IsFigure(s.p95, listed, 0.95) && IsFigure(s.p99, listed, 0.99)
    ensures IsShare(s.firstShare, s.firsts, |CountedSet(c, producers)|)
  {
    listed :| multiset(listed) == EndpointDelays(c, producers, s.name) && HasFigures(s, listed);
    FigureMeans(listed, 0.50);
    FigureMeans(listed, 0.95);
    FigureMeans(listed, 0.99);
    ShareMeans(s.firsts, |CountedSet(c, producers)|);
  }

  /** No sighting of the signature is older than its producer's start. */
  predicate AllRecent(d: Sightings) {
    forall e :: e in d ==> d[e].startWallclockSecs <= d[e].wallclockSecs
  }

  /** Seen by as many endpoints as there are producers, if there are any. */
  predicate SeenByAll(d: Sightings, producers: nat) {
    producers > 0 ==> |d| == producers
  }

  lemma CasesSpelledOut(d: Sightings, producers: nat)
    ensures Counted(d, producers) <==> SeenByAll(d, producers) && d != map[] && AllRecent(d)
    ensures Backfilled(d, producers) <==> SeenByAll(d, producers) && !AllRecent(d)
  {
  }

  function RecentSet(c: Comparator, producers: nat): set<string> {
    set s | s in c && SeenByAll(c[s], producers) && c[s] != map[] && AllRecent(c[s])
  }

  function OldSet(c: Comparator, producers: nat): set<string> {
    set s | s in c && SeenByAll(c[s], producers) && !AllRecent(c[s])
  }

  function SeenSet(c: Comparator, e: string): set<string> {
    set s | s in c && e in c[s]
  }

  lemma SetsSpelledOut(c: Comparator, producers: nat)
    ensures CountedSet(c, producers) == RecentSet(c, producers)
    ensures BackfilledSet(c, producers) == OldSet(c, producers)
  {
    forall s | s in c
      ensures Counted(c[s], producers) <==> SeenByAll(c[s], producers) && c[s] != map[] && AllRecent(c[s])
      ensures Backfilled(c[s], producers) <==> SeenByAll(c[s], producers) && !AllRecent(c[s])
    {
      CasesSpelledOut(c[s], producers);
    }
  }

  lemma EndpointSetsSpelledOut(c: Comparator, producers: nat, e: string)
    ensures ValidSet(c, producers, e) == RecentSet(c, producers) * SeenSet(c, e)
    ensures BackfillSet(c, producers, e) == OldSet(c, producers) * SeenSet(c, e)
  {
    SetsSpelledOut(c, producers);
    assert ValidSet(c, producers, e) == CountedSet(c, producers) * SeenSet(c, e);
    assert BackfillSet(c, producers, e) == BackfilledSet(c, producers) * SeenSet(c, e);
  }

  /** What the counts and shares are, on the sightings themselves. */
  lemma CountsSpelledOut(r: RunSummary, c: Comparator, names: seq<string>, w: map<string, string>, e: EndpointSummary)
    requires IsRunSummary(r, c, names, w) && e in r.endpoints
    ensures r.total == |RecentSet(c, |names|)| && r.backfillSignatures == |OldSet(c, |names|)|
    ensures e.valid == |RecentSet(c, |names|) * SeenSet(c, e.name)|
    ensures e.backfill == |OldSet(c, |names|) * SeenSet(c, e.name)|
    ensures IsShare(e.firstShare, e.firsts, r.total)
  {
    SetsSpelledOut(c, |names|);
    EndpointSetsSpelledOut(c, |names|, e.name);
    ShareMeans(e.firsts, r.total);
  }

  function NameSet(names: seq<string>): set<string> {
    set e | e in names
  }

  function EndpointNames(endpoints: seq<EndpointSummary>): set<string> {
    if endpoints == [] then {}
    else EndpointNames(endpoints[..|endpoints| - 1]) + {endpoints[|endpoints| - 1].name}
  }

  ghost predicate IsRunSummary(r: RunSummary, c: Comparator, names: seq<string>, w: map<string, string>) {
    && Winners(c, |names|, w)
    && r.total == |CountedSet(c, |names|)| && r.hasData == (r.total > 0)
    && r.backfillSignatures == |BackfilledSet(c, |names|)|
    && (forall i, j :: 0 <= i < j < |r.endpoints| ==> r.endpoints[i].name != r.endpoints[j].name)
    && EndpointNames(r.endpoints) == NameSet(names)
    && (forall s :: s in r.endpoints ==> IsEndpointSummary(s, c, |names|, w))
    && IsOverall(r.overall, OverallDelays(c, |names|, NameSet(names), w))
    && IsFastest(r.endpoints, r.fastest)
  }
}
