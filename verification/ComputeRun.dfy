/**
 * The run comparison as it is computed: loops over hash maps in whatever order they are visited.
 * The orders are parameters; the result is specified without them.
 */
module ComputeRun {
  import opened Wrappers
  import opened Ledger
  import opened RunComparison
  import opened Visiting

  datatype EndpointStats = EndpointStats(observations: nat, firsts: nat, delaysMs: seq<real>, backfill: nat)

  type StatsMap = map<string, EndpointStats>

  /** The first of the visited endpoints with the least elapsed time. */
  ghost predicate FirstVisited(d: Sightings, order: seq<string>, e: string) {
    exists i :: FirstVisitedAt(d, order, e, i)
  }

  ghost predicate FirstVisitedAt(d: Sightings, order: seq<string>, e: string, i: int) {
    0 <= i < |order| && order[i] == e && Earliest(d, e) && forall k :: 0 <= k < i ==> !Earliest(d, order[k])
  }

  /** For each signature an order in which its endpoints may be visited. */
  ghost predicate KeyOrders(c: Comparator, keyOrders: map<string, seq<string>>) {
    forall s :: s in c ==> s in keyOrders && Lists(keyOrders[s], c[s].Keys)
  }

  /** In each counted signature the winner is the first visited. */
  ghost predicate WinnersVisited(c: Comparator, producers: nat, keyOrders: map<string, seq<string>>,
                                 w: map<string, string>) {
    forall s :: s in c && Counted(c[s], producers) ==>
      s in w && s in keyOrders && FirstVisited(c[s], keyOrders[s], w[s])
  }

  method AnyHistorical(d: Sightings, order: seq<string>) returns (r: bool)
    requires Lists(order, d.Keys)
    ensures r == Historical(d)
  {
    for i := 0 to |order|
      invariant forall k :: 0 <= k < i ==>
                  order[k] in d && !(d[order[k]].wallclockSecs < d[order[k]].startWallclockSecs)
    {
      assert order[i] in order;
      if d[order[i]].wallclockSecs < d[order[i]].startWallclockSecs {
        return true;
      }
    }
    forall e | e in d ensures !(d[e].wallclockSecs < d[e].startWallclockSecs) {
      var k :| 0 <= k < |order| && order[k] == e;
    }
    r := false;
  }

  /** `min_by_key` keeps the first of the visited endpoints with the least elapsed time. */
  method FirstEarliest(d: Sightings, order: seq<string>) returns (r: Option<string>)
    requires Lists(order, d.Keys)
    ensures r.None? <==> d == map[]
    ensures r.Some? ==> FirstVisited(d, order, r.value)
    ensures r.Some? ==> r.value in d && forall e :: e in d ==> d[r.value].elapsed <= d[e].elapsed
  {
    if order == [] {
      assert forall e :: e in d ==> e in order;
      return None;
    }
    assert order[0] in order;
    var best := order[0];
    ghost var at := 0;
    for i := 1 to |order|
      invariant 0 <= at < i && best == order[at] && best in d
      invariant forall k :: 0 <= k < i ==> order[k] in d && d[best].elapsed <= d[order[k]].elapsed
      invariant forall k :: 0 <= k < at ==> d[best].elapsed < d[order[k]].elapsed
    {
      assert order[i] in order;
      if d[order[i]].elapsed < d[best].elapsed {
        best, at := order[i], i;
      }
    }
    forall e | e in d ensures d[best].elapsed <= d[e].elapsed {
      var k :| 0 <= k < |order| && order[k] == e;
    }
    assert FirstVisitedAt(d, order, best, at);
    r := Some(best);
  }

  function WithBackfill(s: EndpointStats): EndpointStats {
    s.(backfill := s.backfill + 1)
  }

  method AddBackfill(stats: StatsMap, order: seq<string>, ghost keys: set<string>) returns (r: StatsMap)
    requires Lists(order, keys)
    ensures r.Keys == stats.Keys
    ensures forall e :: e in r ==> r[e] == if e in keys then WithBackfill(stats[e]) else stats[e]
  {
    r := stats;
    for i := 0 to |order|
      invariant r.Keys == stats.Keys
      invariant forall e :: e in r ==> r[e] == if e in order[..i] then WithBackfill(stats[e]) else stats[e]
    {
      if order[i] in r {
        r := r[order[i] := WithBackfill(r[order[i]])];
      }
      assert order[..i + 1] == order[..i] + [order[i]];
    }
    assert order[..|order|] == order;
  }

  /** `diff_ms` and the clamp at zero. */
  function DelayMs(tx: nat, first: nat): (r: real)
    ensures r >= 0.0
  {
    LatencyMs(first, tx)
  }

  function WithSighting(s: EndpointStats, first: bool, delayMs: real): EndpointStats {
    if first then s.(observations := s.observations + 1, firsts := s.firsts + 1, delaysMs := s.delaysMs + [0.0])
    else s.(observations := s.observations + 1, delaysMs := s.delaysMs + [delayMs])
  }

  function Delay(d: Sightings, e: string, first: string): real
    requires e in d && first in d
  {
    DelayMs(d[e].elapsed, d[first].elapsed)
  }

  function Sighted(s: EndpointStats, d: Sightings, e: string, first: string): EndpointStats
    requires e in d && first in d
  {
    WithSighting(s, e == first, Delay(d, e, first))
  }

  /** Of one signature, the endpoints in `visited` have been added to the stats `before`. */
  ghost predicate StatsVisited(r: StatsMap, before: StatsMap, d: Sightings, first: string, visited: set<string>)
    requires first in d && visited <= d.Keys
  {
    && r.Keys == before.Keys
    && forall e :: e in r ==>
         r[e] == if e in visited then Sighted(before[e], d, e, first) else before[e]
  }

  ghost predicate DelaysVisited(delays: seq<real>, before: seq<real>, d: Sightings, first: string, others: set<string>)
    requires first in d && others <= d.Keys
  {
    multiset(delays) == multiset(before) + Spread(d, d[first].elapsed, others)
  }

  /** The body of the loop over one signature's endpoints. */
  method AddSighting(d: Sightings, endpoint: string, first: string, stats: StatsMap, overall: seq<real>)
    returns (r: StatsMap, delays: seq<real>)
    requires endpoint in d && first in d
    ensures r == if endpoint in stats then stats[endpoint := Sighted(stats[endpoint], d, endpoint, first)] else stats
    ensures delays == overall + if endpoint in stats && endpoint != first then [Delay(d, endpoint, first)] else []
  {
    r, delays := stats, overall;
    if endpoint in r {
      if endpoint == first {
        r := r[endpoint := WithSighting(r[endpoint], true, 0.0)];
      } else {
        var delayMs := Delay(d, endpoint, first);
        r := r[endpoint := WithSighting(r[endpoint], false, delayMs)];
        delays := delays + [delayMs];
      }
    }
  }

  lemma StatsVisit(r: StatsMap, before: StatsMap, d: Sightings, first: string, visited: set<string>, e: string)
    requires first in d && visited <= d.Keys && e in d && e !in visited
    requires StatsVisited(r, before, d, first, visited)
    ensures StatsVisited(if e in r then r[e := Sighted(r[e], d, e, first)] else r, before, d, first, visited + {e})
  {
  }

  lemma DelaysVisit(delays: seq<real>, before: seq<real>, d: Sightings, first: string, visited: set<string>,
                    known: set<string>, e: string)
    requires first in d && visited <= d.Keys && e in d && e !in visited
    requires DelaysVisited(delays, before, d, first, visited * known - {first})
    ensures DelaysVisited(delays + if e in known && e != first then [Delay(d, e, first)] else [],
                          before, d, first, (visited + {e}) * known - {first})
  {
    SpreadVisit(d, d[first].elapsed, visited, known, first, e);
  }

  /** One more observation of an endpoint, `ms` behind the first, and a detection if it is the first itself. */
  predicate SightingAdded(before: EndpointStats, after: EndpointStats, isFirst: bool, first: nat, elapsed: nat) {
    && after.observations == before.observations + 1 && after.backfill == before.backfill
    && after.firsts == before.firsts + (if isFirst then 1 else 0)
    && |after.delaysMs| == |before.delaysMs| + 1 && before.delaysMs <= after.delaysMs
    && IsLatency(after.delaysMs[|before.delaysMs|], first, elapsed)
  }

  lemma SightedMeans(s: EndpointStats, d: Sightings, e: string, first: string)
    requires e in d && first in d
    ensures SightingAdded(s, Sighted(s, d, e, first), e == first, d[first].elapsed, d[e].elapsed)
  {
    LatencyMeans(d[first].elapsed, d[e].elapsed);
  }

  /** One delay appended for each of the `others`, in that order. */
  ghost predicate DelaysAdded(before: seq<real>, after: seq<real>, d: Sightings, first: string, others: seq<string>)
    requires first in d
  {
    && |after| == |before| + |others| && before <= after
    && forall i :: 0 <= i < |others| ==>
         others[i] in d && IsLatency(after[|before| + i], d[first].elapsed, d[others[i]].elapsed)
  }

  lemma DelayAppended(before: seq<real>, after: seq<real>, d: Sightings, first: string, others: seq<string>, e: string)
    requires first in d && e in d && DelaysAdded(before, after, d, first, others)
    ensures DelaysAdded(before, after + [Delay(d, e, first)], d, first, others + [e])
  {
    LatencyMeans(d[first].elapsed, d[e].elapsed);
  }

  lemma OneMoreListed(others: seq<string>, keys: set<string>, e: string)
    requires Lists(others, keys) && e !in keys
    ensures Lists(others + [e], keys + {e})
  {
  }

  method AddSightings(d: Sightings, order: seq<string>, first: string, stats: StatsMap, overall: seq<real>)
    returns (r: StatsMap, delays: seq<real>)
    requires Lists(order, d.Keys) && first in d
    ensures StatsVisited(r, stats, d, first, d.Keys)
    ensures DelaysVisited(delays, overall, d, first, d.Keys * stats.Keys - {first})
    ensures forall e :: e in r ==>
              if e in d then SightingAdded(stats[e], r[e], e == first, d[first].elapsed, d[e].elapsed)
              else r[e] == stats[e]
    ensures exists others ::
              Lists(others, d.Keys * stats.Keys - {first}) && DelaysAdded(overall, delays, d, first, others)
  {
    r, delays := stats, overall;
    ghost var visited: set<string> := {};
    ghost var others: seq<string> := [];
    for i := 0 to |order|
      invariant visited <= d.Keys && (forall k :: 0 <= k < |order| ==> (order[k] in visited <==> k < i))
      invariant StatsVisited(r, stats, d, first, visited)
      invariant DelaysVisited(delays, overall, d, first, visited * stats.Keys - {first})
      invariant Lists(others, visited * stats.Keys - {first}) && DelaysAdded(overall, delays, d, first, others)
    {
      assert order[i] in order;
      NextOther(others, overall, delays, d, first, visited, stats.Keys, order[i]);
      if order[i] in stats && order[i] != first {
        others := others + [order[i]];
      }
      StatsVisit(r, stats, d, first, visited, order[i]);
      DelaysVisit(delays, overall, d, first, visited, stats.Keys, order[i]);
      r, delays := AddSighting(d, order[i], first, r, delays);
      visited := visited + {order[i]};
    }
    AllVisited(order, d.Keys, visited);
    forall e | e in r && e in d ensures SightingAdded(stats[e], r[e], e == first, d[first].elapsed, d[e].elapsed) {
      SightedMeans(stats[e], d, e, first);
    }
  }

  lemma NextOther(others: seq<string>, before: seq<real>, after: seq<real>, d: Sightings, first: string,
                  visited: set<string>, known: set<string>, e: string)
    requires first in d && e in d && e !in visited
    requires Lists(others, visited * known - {first}) && DelaysAdded(before, after, d, first, others)
    ensures var others' := if e in known && e != first then others + [e] else others;
            var after' := after + if e in known && e != first then [Delay(d, e, first)] else [];
            Lists(others', (visited + {e}) * known - {first}) && DelaysAdded(before, after', d, first, others')
  {
    if e in known && e != first {
      DelayAppended(before, after, d, first, others, e);
      OneMoreListed(others, visited * known - {first}, e);
      assert (visited + {e}) * known - {first} == (visited * known - {first}) + {e};
    } else {
      assert (visited + {e}) * known - {first} == visited * known - {first};
      assert after + [] == after;
    }
  }

  lemma AllVisited(order: seq<string>, keys: set<string>, visited: set<string>)
    requires Lists(order, keys) && visited <= keys && forall k :: 0 <= k < |order| ==> order[k] in visited
    ensures visited == keys
  {
  }

  lemma SpreadVisit(d: Sightings, first: nat, visited: set<string>, known: set<string>, winner: string, e: string)
    requires visited <= d.Keys && e in d && e !in visited
    ensures Spread(d, first, (visited + {e}) * known - {winner})
         == Spread(d, first, visited * known - {winner})
            + if e in known && e != winner then multiset{LatencyMs(first, d[e].elapsed)} else multiset{}
  {
    var before, after := visited * known - {winner}, (visited + {e}) * known - {winner};
    if e in known && e != winner {
      SpreadSplit(d, first, after, e);
      assert after - {e} == before;
    } else {
      assert after == before;
    }
  }

  // ----- one more signature -----

  /** The figures kept for one endpoint after the signatures in `c`. */
  ghost predicate StatsOf(s: EndpointStats, e: string, c: Comparator, producers: nat, w: map<string, string>) {
    && s.observations == |ValidSet(c, producers, e)|
    && s.firsts == |FirstsOf(c, producers, w, e)|
    && s.backfill == |BackfillSet(c, producers, e)|
    && multiset(s.delaysMs) == EndpointDelays(c, producers, e)
  }

  /** `c'` is `c` with the sightings `d` of one more signature. */
  ghost predicate Adds(c: Comparator, c': Comparator, s: string, d: Sightings) {
    && s !in c && c'.Keys == c.Keys + {s} && c'[s] == d
    && forall t :: t in c ==> c'[t] == c[t]
  }

  lemma SizeStep(before: set<string>, after: set<string>, s: string, joins: bool)
    requires s !in before && forall t :: t in after <==> t in before || (joins && t == s)
    ensures |after| == |before| + if joins then 1 else 0
  {
    if joins {
      assert after == before + {s};
    } else {
      assert after == before;
    }
  }

  lemma ValidStep(c: Comparator, c': Comparator, producers: nat, s: string, d: Sightings, e: string)
    requires Adds(c, c', s, d)
    ensures |ValidSet(c', producers, e)| ==
            |ValidSet(c, producers, e)| + if Counted(d, producers) && e in d then 1 else 0
  {
    SizeStep(ValidSet(c, producers, e), ValidSet(c', producers, e), s, Counted(d, producers) && e in d);
  }

  lemma BackfillStep(c: Comparator, c': Comparator, producers: nat, s: string, d: Sightings, e: string)
    requires Adds(c, c', s, d)
    ensures |BackfillSet(c', producers, e)| ==
            |BackfillSet(c, producers, e)| + if Backfilled(d, producers) && e in d then 1 else 0
  {
    SizeStep(BackfillSet(c, producers, e), BackfillSet(c', producers, e), s, Backfilled(d, producers) && e in d);
  }

  lemma TotalsStep(c: Comparator, c': Comparator, producers: nat, s: string, d: Sightings)
    requires Adds(c, c', s, d)
    ensures |CountedSet(c', producers)| == |CountedSet(c, producers)| + if Counted(d, producers) then 1 else 0
    ensures |BackfilledSet(c', producers)| == |BackfilledSet(c, producers)| + if Backfilled(d, producers) then 1 else 0
  {
    SizeStep(CountedSet(c, producers), CountedSet(c', producers), s, Counted(d, producers));
    SizeStep(BackfilledSet(c, producers), BackfilledSet(c', producers), s, Backfilled(d, producers));
  }

  lemma FirstsStep(c: Comparator, c': Comparator, producers: nat, s: string, d: Sightings, w: map<string, string>,
                   first: string, e: string)
    requires Adds(c, c', s, d)
    ensures |FirstsOf(c', producers, w[s := first], e)|
         == |FirstsOf(c, producers, w, e)| + if Counted(d, producers) && first == e then 1 else 0
  {
    assert forall t :: t in c ==> WinnerOf(w[s := first], t) == WinnerOf(w, t);
    SizeStep(FirstsOf(c, producers, w, e), FirstsOf(c', producers, w[s := first], e), s,
             Counted(d, producers) && first == e);
  }

  lemma DelaysStep(c: Comparator, c': Comparator, producers: nat, s: string, d: Sightings, e: string)
    requires Adds(c, c', s, d)
    ensures EndpointDelays(c', producers, e) == OwnDelay(d, producers, e) + EndpointDelays(c, producers, e)
  {
    var m, n := OwnDelays(c', producers, e), OwnDelays(c, producers, e);
    assert forall t :: t in n ==> m[t] == n[t];
    SumStep(m, n, s);
  }

  lemma OverallStep(c: Comparator, c': Comparator, producers: nat, s: string, d: Sightings, known: set<string>,
                    w: map<string, string>, first: string)
    requires Adds(c, c', s, d)
    ensures OverallDelays(c', producers, known, w[s := first])
         == OthersDelays(d, producers, known, first) + OverallDelays(c, producers, known, w)
  {
    var m, n := DelaysBehind(c', producers, known, w[s := first]), DelaysBehind(c, producers, known, w);
    forall t | t in c ensures m[t] == n[t] {
      assert WinnerOf(w[s := first], t) == WinnerOf(w, t);
    }
    SumStep(m, n, s);
  }

  lemma SumStep(m: map<string, multiset<real>>, n: map<string, multiset<real>>, s: string)
    requires s !in n && m.Keys == n.Keys + {s} && forall t :: t in n ==> m[t] == n[t]
    ensures SumOf(m) == m[s] + SumOf(n)
  {
    SumOfSplit(m, s);
    assert m - {s} == n;
  }

  lemma SkippedKeepsStats(st: EndpointStats, e: string, c: Comparator, c': Comparator, producers: nat,
                          s: string, d: Sightings, w: map<string, string>)
    requires StatsOf(st, e, c, producers, w) && Adds(c, c', s, d) && !Counted(d, producers) && !Backfilled(d, producers)
    ensures StatsOf(st, e, c', producers, w[s := ""])
  {
    ValidStep(c, c', producers, s, d, e);
    BackfillStep(c, c', producers, s, d, e);
    FirstsStep(c, c', producers, s, d, w, "", e);
    DelaysStep(c, c', producers, s, d, e);
  }

  lemma BackfillKeepsStats(st: EndpointStats, e: string, c: Comparator, c': Comparator, producers: nat,
                           s: string, d: Sightings, w: map<string, string>)
    requires StatsOf(st, e, c, producers, w) && Adds(c, c', s, d) && Backfilled(d, producers)
    ensures StatsOf(if e in d then WithBackfill(st) else st, e, c', producers, w[s := ""])
  {
    ValidStep(c, c', producers, s, d, e);
    BackfillStep(c, c', producers, s, d, e);
    FirstsStep(c, c', producers, s, d, w, "", e);
    DelaysStep(c, c', producers, s, d, e);
  }

  lemma SightingDelay(st: EndpointStats, e: string, producers: nat, d: Sightings, first: string)
    requires Counted(d, producers) && Earliest(d, first)
    ensures var st' := if e in d then Sighted(st, d, e, first) else st;
            multiset(st'.delaysMs) == OwnDelay(d, producers, e) + multiset(st.delaysMs)
  {
    LeastIs(d, first);
  }

  lemma SightingKeepsStats(st: EndpointStats, e: string, c: Comparator, c': Comparator, producers: nat,
                           s: string, d: Sightings, w: map<string, string>, first: string)
    requires StatsOf(st, e, c, producers, w) && Adds(c, c', s, d) && Counted(d, producers) && Earliest(d, first)
    ensures StatsOf(if e in d then Sighted(st, d, e, first) else st,
                    e, c', producers, w[s := first])
  {
    ValidStep(c, c', producers, s, d, e);
    BackfillStep(c, c', producers, s, d, e);
    FirstsStep(c, c', producers, s, d, w, first, e);
    DelaysStep(c, c', producers, s, d, e);
    SightingDelay(st, e, producers, d, first);
  }

  lemma OverallKept(c: Comparator, c': Comparator, producers: nat, s: string, d: Sightings, known: set<string>,
                    w: map<string, string>)
    requires Adds(c, c', s, d) && !Counted(d, producers)
    ensures OverallDelays(c', producers, known, w[s := ""]) == OverallDelays(c, producers, known, w)
  {
    OverallStep(c, c', producers, s, d, known, w, "");
  }

  lemma OverallGrown(c: Comparator, c': Comparator, producers: nat, s: string, d: Sightings, known: set<string>,
                     w: map<string, string>, first: string)
    requires Adds(c, c', s, d) && Counted(d, producers) && Earliest(d, first)
    ensures OverallDelays(c', producers, known, w[s := first])
         == Spread(d, d[first].elapsed, d.Keys * known - {first}) + OverallDelays(c, producers, known, w)
  {
    LeastIs(d, first);
    OverallStep(c, c', producers, s, d, known, w, first);
  }

  ghost predicate AllStats(stats: StatsMap, c: Comparator, producers: nat, w: map<string, string>) {
    forall e :: e in stats ==> StatsOf(stats[e], e, c, producers, w)
  }

  /** What the accumulators hold after the signatures in `c`. */
  ghost predicate Accumulated(stats: StatsMap, overall: seq<real>, total: nat, backfills: nat,
                              c: Comparator, producers: nat, w: map<string, string>) {
    && AllStats(stats, c, producers, w)
    && multiset(overall) == OverallDelays(c, producers, stats.Keys, w)
    && total == |CountedSet(c, producers)| && backfills == |BackfilledSet(c, producers)|
    && Winners(c, producers, w)
  }

  lemma WinnersStep(c: Comparator, c': Comparator, producers: nat, s: string, d: Sightings, w: map<string, string>,
                    first: string)
    requires Adds(c, c', s, d) && Winners(c, producers, w) && (Counted(d, producers) ==> Earliest(d, first))
    ensures Winners(c', producers, w[s := first])
  {
  }

  lemma SkippedKeepsAll(stats: StatsMap, overall: seq<real>, total: nat, backfills: nat, c: Comparator, c': Comparator,
                        producers: nat, s: string, d: Sightings, w: map<string, string>)
    requires Accumulated(stats, overall, total, backfills, c, producers, w) && Adds(c, c', s, d)
    requires !Counted(d, producers) && !Backfilled(d, producers)
    ensures Accumulated(stats, overall, total, backfills, c', producers, w[s := ""])
  {
    TotalsStep(c, c', producers, s, d);
    WinnersStep(c, c', producers, s, d, w, "");
    OverallKept(c, c', producers, s, d, stats.Keys, w);
    forall e | e in stats ensures StatsOf(stats[e], e, c', producers, w[s := ""]) {
      SkippedKeepsStats(stats[e], e, c, c', producers, s, d, w);
    }
  }

  lemma BackfillKeepsAll(stats: StatsMap, stats': StatsMap, overall: seq<real>, total: nat, backfills: nat,
                         c: Comparator, c': Comparator, producers: nat, s: string, d: Sightings, w: map<string, string>)
    requires Accumulated(stats, overall, total, backfills, c, producers, w) && Adds(c, c', s, d)
             && Backfilled(d, producers)
    requires stats'.Keys == stats.Keys
    requires forall e :: e in stats' ==> stats'[e] == if e in d then WithBackfill(stats[e]) else stats[e]
    ensures Accumulated(stats', overall, total, backfills + 1, c', producers, w[s := ""])
  {
    TotalsStep(c, c', producers, s, d);
    WinnersStep(c, c', producers, s, d, w, "");
    OverallKept(c, c', producers, s, d, stats.Keys, w);
    forall e | e in stats' ensures StatsOf(stats'[e], e, c', producers, w[s := ""]) {
      BackfillKeepsStats(stats[e], e, c, c', producers, s, d, w);
    }
  }

  lemma SightingKeepsAll(stats: StatsMap, stats': StatsMap, overall: seq<real>, overall': seq<real>, total: nat,
                         backfills: nat,
                         c: Comparator, c': Comparator, producers: nat, s: string, d: Sightings,
                             w: map<string, string>, first: string)
    requires Accumulated(stats, overall, total, backfills, c, producers, w) && Adds(c, c', s, d)
    requires Counted(d, producers) && Earliest(d, first)
    requires StatsVisited(stats', stats, d, first, d.Keys)
    requires DelaysVisited(overall', overall, d, first, d.Keys * stats.Keys - {first})
    ensures Accumulated(stats', overall', total + 1, backfills, c', producers, w[s := first])
  {
    TotalsStep(c, c', producers, s, d);
    WinnersStep(c, c', producers, s, d, w, first);
    OverallGrown(c, c', producers, s, d, stats.Keys, w, first);
    forall e | e in stats' ensures StatsOf(stats'[e], e, c', producers, w[s := first]) {
      SightingKeepsStats(stats[e], e, c, c', producers, s, d, w, first);
    }
  }

  lemma VisitedStep(c: Comparator, c': Comparator, producers: nat, s: string, d: Sightings, w: map<string, string>,
                    first: string,
                    keyOrders: map<string, seq<string>>)
    requires Adds(c, c', s, d) && WinnersVisited(c, producers, keyOrders, w) && s in keyOrders
    requires Counted(d, producers) ==> FirstVisited(d, keyOrders[s], first)
    ensures WinnersVisited(c', producers, keyOrders, w[s := first])
  {
  }

  lemma FirstVisitedIsEarliest(d: Sightings, order: seq<string>, e: string)
    requires FirstVisited(d, order, e)
    ensures Earliest(d, e)
  {
  }

  /** The body of the loop over signatures. */
  method AddSignature(stats: StatsMap, overall: seq<real>, total: nat, backfills: nat, d: Sightings,
                      order: seq<string>, producers: nat,
                      ghost s: string, ghost c: Comparator, ghost c': Comparator, ghost w: map<string, string>,
                      ghost keyOrders: map<string, seq<string>>)
    returns (stats': StatsMap, overall': seq<real>, total': nat, backfills': nat, ghost w': map<string, string>)
    requires Accumulated(stats, overall, total, backfills, c, producers, w) && Adds(c, c', s, d) && Lists(order, d.Keys)
    requires WinnersVisited(c, producers, keyOrders, w) && s in keyOrders && keyOrders[s] == order
    ensures stats'.Keys == stats.Keys
    ensures Accumulated(stats', overall', total', backfills', c', producers, w')
    ensures WinnersVisited(c', producers, keyOrders, w')
  {
    stats', overall', total', backfills', w' := stats, overall, total, backfills, w[s := ""];
    if producers > 0 && |d| != producers {
      SkippedKeepsAll(stats, overall, total, backfills, c, c', producers, s, d, w);
      VisitedStep(c, c', producers, s, d, w, "", keyOrders);
      return;
    }
    var isHistorical := AnyHistorical(d, order);
    if isHistorical {
      backfills' := backfills + 1;
      stats' := AddBackfill(stats, order, d.Keys);
      BackfillKeepsAll(stats, stats', overall, total, backfills, c, c', producers, s, d, w);
      VisitedStep(c, c', producers, s, d, w, "", keyOrders);
      return;
    }
    var first := FirstEarliest(d, order);
    if first.None? {
      SkippedKeepsAll(stats, overall, total, backfills, c, c', producers, s, d, w);
      VisitedStep(c, c', producers, s, d, w, "", keyOrders);
      return;
    }
    FirstVisitedIsEarliest(d, order, first.value);
    total' := total + 1;
    stats', overall' := AddSightings(d, order, first.value, stats, overall);
    w' := w[s := first.value];
    SightingKeepsAll(stats, stats', overall, overall', total, backfills, c, c', producers, s, d, w, first.value);
    VisitedStep(c, c', producers, s, d, w, first.value, keyOrders);
  }

  // ----- the summary -----

  function BuildSummary(endpoint: string, stats: EndpointStats, total: nat): EndpointSummary {
    EndpointSummary(endpoint, Share(stats.firsts, total),
                    Figure(stats.delaysMs, 0.50), Figure(stats.delaysMs, 0.95), Figure(stats.delaysMs, 0.99),
                    stats.observations, stats.firsts, stats.backfill)
  }

  lemma BuiltSummary(endpoint: string, stats: EndpointStats, c: Comparator, producers: nat, w: map<string, string>)
    requires StatsOf(stats, endpoint, c, producers, w)
    ensures IsEndpointSummary(BuildSummary(endpoint, stats, |CountedSet(c, producers)|), c, producers, w)
  {
    var r := BuildSummary(endpoint, stats, |CountedSet(c, producers)|);
    assert HasFigures(r, stats.delaysMs);
  }

  /** `filter` and `min_by`: the first of the least endpoints with data; names differ, so the only one. */
  method PickFastest(endpoints: seq<EndpointSummary>) returns (r: Option<string>)
    requires forall i, j :: 0 <= i < j < |endpoints| ==> endpoints[i].name != endpoints[j].name
    ensures IsFastest(endpoints, r)
  {
    ghost var at := -1;
    var best: Option<EndpointSummary> := None;
    for i := 0 to |endpoints|
      invariant best.None? ==> forall k :: 0 <= k < i ==> endpoints[k].valid == 0
      invariant best.Some? ==> 0 <= at < i && best.value == endpoints[at] && best.value.valid > 0
      invariant best.Some? ==> forall k :: 0 <= k < i && k != at && endpoints[k].valid > 0 ==>
                CompareLatency(best.value, endpoints[k]) == Before
    {
      var s := endpoints[i];
      if s.valid > 0 {
        if best.None? {
          best, at := Some(s), i;
        } else {
          CompareLatencyIsStrictTotal(best.value, s, s);
          CompareLatencyIsStrictTotal(s, best.value, best.value);
          if CompareLatency(s, best.value) == Before {
            forall k | 0 <= k < i && k != at && endpoints[k].valid > 0
              ensures CompareLatency(s, endpoints[k]) == Before
            {
              CompareLatencyIsStrictTotal(s, best.value, endpoints[k]);
            }
            best, at := Some(s), i;
          }
        }
      }
    }
    if best.None? {
      return None;
    }
    assert IsBest(endpoints, best.value);
    r := Some(best.value.name);
  }

  ghost predicate Built(endpoints: seq<EndpointSummary>, stats: StatsMap, order: seq<string>, total: nat) {
    && |endpoints| <= |order|
    && forall k :: 0 <= k < |endpoints| ==>
         order[k] in stats && endpoints[k] == BuildSummary(order[k], stats[order[k]], total)
  }

  lemma {:induction false} BuiltNames(endpoints: seq<EndpointSummary>, stats: StatsMap, order: seq<string>, total: nat)
    requires Built(endpoints, stats, order, total)
    ensures EndpointNames(endpoints) == NameSet(order[..|endpoints|])
  {
    if endpoints != [] {
      var n := |endpoints| - 1;
      BuiltNames(endpoints[..n], stats, order, total);
      assert order[..n + 1] == order[..n] + [order[n]];
    }
  }

  method BuildEndpoints(stats: StatsMap, order: seq<string>, total: nat) returns (endpoints: seq<EndpointSummary>)
    requires Lists(order, stats.Keys)
    ensures |endpoints| == |order| && Built(endpoints, stats, order, total)
  {
    endpoints := [];
    for i := 0 to |order|
      invariant |endpoints| == i && Built(endpoints, stats, order, total)
    {
      ListedIn(order, stats.Keys, i);
      BuiltOneMore(endpoints, stats, order, total);
      endpoints := endpoints + [BuildSummary(order[i], stats[order[i]], total)];
    }
  }

  lemma BuiltOneMore(endpoints: seq<EndpointSummary>, stats: StatsMap, order: seq<string>, total: nat)
    requires Built(endpoints, stats, order, total) && |endpoints| < |order| && order[|endpoints|] in stats
    ensures Built(endpoints + [BuildSummary(order[|endpoints|], stats[order[|endpoints|]], total)], stats, order, total)
  {
  }

  lemma ListedIn(order: seq<string>, keys: set<string>, i: nat)
    requires Lists(order, keys) && i < |order|
    ensures order[i] in keys
  {
    assert order[i] in order;
  }

  /** One summary for each name. */
  lemma BuiltForEach(endpoints: seq<EndpointSummary>, stats: StatsMap, order: seq<string>, total: nat)
    requires Lists(order, stats.Keys) && |endpoints| == |order| && Built(endpoints, stats, order, total)
    ensures EndpointNames(endpoints) == stats.Keys
    ensures forall i, j :: 0 <= i < j < |endpoints| ==> endpoints[i].name != endpoints[j].name
  {
    BuiltNames(endpoints, stats, order, total);
    assert order[..|order|] == order;
    assert NameSet(order) == stats.Keys;
  }

  method InitialStats(names: seq<string>) returns (stats: StatsMap)
    ensures stats.Keys == NameSet(names) && forall e :: e in stats ==> stats[e] == EndpointStats(0, 0, [], 0)
  {
    stats := map[];
    for i := 0 to |names|
      invariant stats.Keys == NameSet(names[..i])
      invariant forall e :: e in stats ==> stats[e] == EndpointStats(0, 0, [], 0)
    {
      assert names[..i + 1] == names[..i] + [names[i]];
      stats := stats[names[i] := EndpointStats(0, 0, [], 0)];
    }
    assert names[..|names|] == names;
  }

  /** The loop over signatures; the winners are returned for the specification only. */
  method AccumulateAll(c: Comparator, initial: StatsMap, producers: nat, order: seq<string>,
                       keyOrders: map<string, seq<string>>)
    returns (stats: StatsMap, overall: seq<real>, total: nat, backfills: nat, ghost w: map<string, string>)
    requires forall e :: e in initial ==> initial[e] == EndpointStats(0, 0, [], 0)
    requires Lists(order, c.Keys) && KeyOrders(c, keyOrders)
    ensures stats.Keys == initial.Keys && Accumulated(stats, overall, total, backfills, c, producers, w)
    ensures WinnersVisited(c, producers, keyOrders, w)
  {
    stats, overall, total, backfills, w := initial, [], 0, 0, map[];
    ghost var seen: Comparator := map[];
    NothingAccumulated(stats, producers);
    for i := 0 to |order|
      invariant stats.Keys == initial.Keys
      invariant Seen(seen, c, order, i)
      invariant Accumulated(stats, overall, total, backfills, seen, producers, w)
      invariant WinnersVisited(seen, producers, keyOrders, w)
    {
      var s := order[i];
      assert s in order;
      ghost var next := seen[s := c[s]];
      SeenStep(seen, c, order, i);
      stats, overall, total, backfills, w :=
        AddSignature(stats, overall, total, backfills, c[s], keyOrders[s], producers, s, seen, next, w, keyOrders);
      seen := next;
    }
    AllSeen(seen, c, order);
  }

  /** The first `i` signatures of the order have been seen. */
  ghost predicate Seen(seen: Comparator, c: Comparator, order: seq<string>, i: nat) {
    && (forall k :: 0 <= k < |order| ==> (order[k] in seen <==> k < i))
    && forall s :: s in seen ==> s in c && seen[s] == c[s]
  }

  lemma SeenStep(seen: Comparator, c: Comparator, order: seq<string>, i: nat)
    requires Lists(order, c.Keys) && i < |order| && Seen(seen, c, order, i)
    ensures order[i] in c
    ensures Adds(seen, seen[order[i] := c[order[i]]], order[i], c[order[i]])
    ensures Seen(seen[order[i] := c[order[i]]], c, order, i + 1)
  {
    assert order[i] in order;
  }

  lemma AllSeen(seen: Comparator, c: Comparator, order: seq<string>)
    requires Lists(order, c.Keys) && Seen(seen, c, order, |order|)
    ensures seen == c
  {
    AllVisited(order, c.Keys, seen.Keys);
  }

  /** Whatever the orders, the result is the comparison's summary, won by the endpoints visited first among ties. */
  method ComputeRunSummary(c: Comparator, names: seq<string>,
                           signatureOrder: seq<string>, keyOrders: map<string, seq<string>>, statsOrder: seq<string>)
    returns (r: RunSummary)
    requires Lists(signatureOrder, c.Keys) && Lists(statsOrder, NameSet(names)) && KeyOrders(c, keyOrders)
    ensures exists w :: IsRunSummary(r, c, names, w) && WinnersVisited(c, |names|, keyOrders, w)
  {
    var stats := InitialStats(names);
    var overall: seq<real>, total, backfills;
    ghost var w: map<string, string>;
    stats, overall, total, backfills, w := AccumulateAll(c, stats, |names|, signatureOrder, keyOrders);
    var endpoints := BuildEndpoints(stats, statsOrder, total);
    BuiltForEach(endpoints, stats, statsOrder, total);
    forall i | 0 <= i < |endpoints| ensures IsEndpointSummary(endpoints[i], c, |names|, w) {
      BuiltSummary(statsOrder[i], stats[statsOrder[i]], c, |names|, w);
    }
    var fastest := PickFastest(endpoints);
    r := RunSummary(endpoints, fastest, total > 0, total, backfills, BuildOverall(overall));
    assert IsOverall(r.overall, OverallDelays(c, |names|, NameSet(names), w));
    assert IsRunSummary(r, c, names, w);
  }

  lemma NothingAccumulated(stats: StatsMap, producers: nat)
    requires forall e :: e in stats ==> stats[e] == EndpointStats(0, 0, [], 0)
    ensures Accumulated(stats, [], 0, 0, map[], producers, map[])
  {
    var c: Comparator, w: map<string, string> := map[], map[];
    assert CountedSet(c, producers) == {} && BackfilledSet(c, producers) == {};
    assert DelaysBehind(c, producers, stats.Keys, w) == map[];
    forall e | e in stats ensures StatsOf(stats[e], e, c, producers, w) {
      assert ValidSet(c, producers, e) == {} && BackfillSet(c, producers, e) == {};
      assert FirstsOf(c, producers, w, e) == {};
      assert OwnDelays(c, producers, e) == map[];
    }
  }
}
