/** Which parts of a run comparison depend on the iteration order and on the choice among ties. */
module RunOrder {
  import opened Wrappers
  import opened OrderStatistics
  import Accumulator
  import opened ComputeRun
  import opened RunComparison
  import opened Visiting

  /** No counted signature is seen equally early by a configured endpoint and by an unknown one. */
  ghost predicate NoMixedTies(c: Comparator, producers: nat, known: set<string>) {
    forall s, e, f :: s in c && Counted(c[s], producers) && Earliest(c[s], e) && Earliest(c[s], f) ==>
      (e in known <==> f in known)
  }

  lemma KnownKeysNeverMix(c: Comparator, producers: nat, known: set<string>)
    requires forall s :: s in c ==> c[s].Keys <= known
    ensures NoMixedTies(c, producers, known)
  {
  }

  lemma WithoutEarliest(d: Sightings, e: string, known: set<string>)
    requires Earliest(d, e)
    ensures Spread(d, Least(d), d.Keys * known)
         == Spread(d, Least(d), d.Keys * known - {e}) + if e in known then multiset{0.0} else multiset{}
  {
    LeastIs(d, e);
    if e in known {
      SpreadSplit(d, Least(d), d.Keys * known, e);
    } else {
      assert d.Keys * known - {e} == d.Keys * known;
    }
  }

  lemma OthersDelaysIndependent(d: Sightings, producers: nat, known: set<string>, e: string, f: string)
    requires Counted(d, producers) ==> Earliest(d, e) && Earliest(d, f) && (e in known <==> f in known)
    ensures OthersDelays(d, producers, known, e) == OthersDelays(d, producers, known, f)
  {
    if Counted(d, producers) {
      WithoutEarliest(d, e, known);
      WithoutEarliest(d, f, known);
    }
  }

  lemma OverallIndependent(c: Comparator, producers: nat, known: set<string>, v: map<string, string>,
                           w: map<string, string>)
    requires NoMixedTies(c, producers, known) && Winners(c, producers, v) && Winners(c, producers, w)
    ensures OverallDelays(c, producers, known, v) == OverallDelays(c, producers, known, w)
  {
    forall s | s in c
      ensures OthersDelays(c[s], producers, known, WinnerOf(v, s))
              == OthersDelays(c[s], producers, known, WinnerOf(w, s))
    {
      OthersDelaysIndependent(c[s], producers, known, WinnerOf(v, s), WinnerOf(w, s));
    }
    assert DelaysBehind(c, producers, known, v) == DelaysBehind(c, producers, known, w);
  }

  lemma MixedTieSizes(d: Sightings, producers: nat, known: set<string>, e: string, f: string)
    requires Counted(d, producers) && Earliest(d, e) && Earliest(d, f) && e in known && f !in known
    ensures |OthersDelays(d, producers, known, e)| + 1 == |OthersDelays(d, producers, known, f)|
  {
    var all := d.Keys * known;
    SpreadSize(d, Least(d), all - {e});
    SpreadSize(d, Least(d), all - {f});
    assert all - {f} == all && all == all - {e} + {e};
  }

  lemma WinnerReplaced(c: Comparator, producers: nat, known: set<string>, w: map<string, string>, s: string, e: string)
    requires s in c
    ensures OverallDelays(c, producers, known, w[s := e])
         == OthersDelays(c[s], producers, known, e) + SumOf(DelaysBehind(c, producers, known, w) - {s})
  {
    var m, n := DelaysBehind(c, producers, known, w[s := e]), DelaysBehind(c, producers, known, w);
    BehindUnchanged(c, producers, known, w, s, e);
    SumOfReplaced(m, n, s);
  }

  lemma SumOfReplaced(m: map<string, multiset<real>>, n: map<string, multiset<real>>, s: string)
    requires m.Keys == n.Keys && s in m && forall t :: t in m && t != s ==> m[t] == n[t]
    ensures SumOf(m) == m[s] + SumOf(n - {s})
  {
    SumOfSplit(m, s);
    assert m - {s} == n - {s};
  }

  lemma BehindUnchanged(c: Comparator, producers: nat, known: set<string>, w: map<string, string>, s: string, e: string)
    ensures forall t :: t in c && t != s ==>
              DelaysBehind(c, producers, known, w[s := e])[t] == DelaysBehind(c, producers, known, w)[t]
  {
    forall t | t in c && t != s
      ensures DelaysBehind(c, producers, known, w[s := e])[t] == DelaysBehind(c, producers, known, w)[t]
    {
      assert WinnerOf(w[s := e], t) == WinnerOf(w, t);
    }
  }

  lemma BehindRest(c: Comparator, producers: nat, known: set<string>, w: map<string, string>, s: string)
    ensures DelaysBehind(c - {s}, producers, known, w) == DelaysBehind(c, producers, known, w) - {s}
  {
  }

  /** With a mixed tie the two choices give different overall delays. */
  lemma MixedTieMatters(c: Comparator, producers: nat, known: set<string>, w: map<string, string>, s: string,
                        e: string, f: string)
    requires Winners(c, producers, w) && s in c && Counted(c[s], producers)
    requires Earliest(c[s], e) && Earliest(c[s], f) && e in known && f !in known
    ensures Differ(c, producers, known, w[s := e], w[s := f])
  {
    WinnersReplaced(c, producers, w, s, e);
    WinnersReplaced(c, producers, w, s, f);
    MixedTieOverall(c, producers, known, w, s, e, f);
  }

  lemma WinnersReplaced(c: Comparator, producers: nat, w: map<string, string>, s: string, e: string)
    requires Winners(c, producers, w) && s in c && Earliest(c[s], e)
    ensures Winners(c, producers, w[s := e])
  {
  }

  lemma MixedTieOverall(c: Comparator, producers: nat, known: set<string>, w: map<string, string>, s: string,
                        e: string, f: string)
    requires s in c && Counted(c[s], producers) && Earliest(c[s], e) && Earliest(c[s], f) && e in known && f !in known
    ensures OverallDelays(c, producers, known, w[s := e]) != OverallDelays(c, producers, known, w[s := f])
  {
    MixedTieSizes(c[s], producers, known, e, f);
    WinnerReplaced(c, producers, known, w, s, e);
    WinnerReplaced(c, producers, known, w, s, f);
    SizesDiffer(OthersDelays(c[s], producers, known, e), OthersDelays(c[s], producers, known, f),
                SumOf(DelaysBehind(c, producers, known, w) - {s}));
  }

  lemma SizesDiffer(a: multiset<real>, b: multiset<real>, rest: multiset<real>)
    requires |a| != |b|
    ensures a + rest != b + rest
  {
    assert |a + rest| == |a| + |rest| && |b + rest| == |b| + |rest|;
  }

  ghost function SomeWinners(c: Comparator, producers: nat): map<string, string> {
    map s | s in c && Counted(c[s], producers) :: EarliestExists(c[s]); var e :| Earliest(c[s], e); e
  }

  /** Two choices of winners that give different overall delays. */
  ghost predicate Differ(c: Comparator, producers: nat, known: set<string>, v: map<string, string>,
                         w: map<string, string>) {
    && Winners(c, producers, v) && Winners(c, producers, w)
    && OverallDelays(c, producers, known, v) != OverallDelays(c, producers, known, w)
  }

  ghost predicate ChoiceMatters(c: Comparator, producers: nat, known: set<string>) {
    exists v, w :: Differ(c, producers, known, v, w)
  }

  lemma SomeWinnersWin(c: Comparator, producers: nat)
    ensures Winners(c, producers, SomeWinners(c, producers))
  {
  }

  lemma MixedTieChoice(c: Comparator, producers: nat, known: set<string>, s: string, e: string, f: string)
    requires s in c && Counted(c[s], producers) && Earliest(c[s], e) && Earliest(c[s], f) && e in known && f !in known
    ensures ChoiceMatters(c, producers, known)
  {
    var w := SomeWinners(c, producers);
    SomeWinnersWin(c, producers);
    MixedTieMatters(c, producers, known, w, s, e, f);
  }

  lemma NoMixedTiesNoChoice(c: Comparator, producers: nat, known: set<string>)
    requires NoMixedTies(c, producers, known)
    ensures !ChoiceMatters(c, producers, known)
  {
    forall v, w | Winners(c, producers, v) && Winners(c, producers, w) ensures !Differ(c, producers, known, v, w) {
      OverallIndependent(c, producers, known, v, w);
    }
  }

  /** The choice among tied earliest endpoints changes the overall delays exactly when some tie is mixed. */
  lemma ChoiceMattersExactly(c: Comparator, producers: nat, known: set<string>)
    ensures ChoiceMatters(c, producers, known) <==> !NoMixedTies(c, producers, known)
  {
    if NoMixedTies(c, producers, known) {
      NoMixedTiesNoChoice(c, producers, known);
    } else {
      var s, e, f :| s in c && Counted(c[s], producers) && Earliest(c[s], e) && Earliest(c[s], f) && e in known
          && f !in known;
      MixedTieChoice(c, producers, known, s, e, f);
    }
  }

  // ----- the choice is the order of visiting -----

  lemma VisitedWin(c: Comparator, producers: nat, keyOrders: map<string, seq<string>>, w: map<string, string>)
    requires WinnersVisited(c, producers, keyOrders, w)
    ensures Winners(c, producers, w)
  {
    forall s | s in c && Counted(c[s], producers) ensures Earliest(c[s], w[s]) {
      FirstVisitedIsEarliest(c[s], keyOrders[s], w[s]);
    }
  }

  ghost function OrdersFor(c: Comparator, producers: nat, w: map<string, string>): map<string, seq<string>>
    requires Winners(c, producers, w)
  {
    map s | s in c :: if Counted(c[s], producers) then OrderFrom(c[s].Keys, w[s]) else SomeOrder(c[s].Keys)
  }

  /** Every choice of winners is the one that some visiting orders make. */
  lemma ChoicesAreVisited(c: Comparator, producers: nat, w: map<string, string>)
    requires Winners(c, producers, w)
    ensures KeyOrders(c, OrdersFor(c, producers, w))
    ensures WinnersVisited(c, producers, OrdersFor(c, producers, w), w)
  {
    forall s | s in c && Counted(c[s], producers) ensures FirstVisited(c[s], OrdersFor(c, producers, w)[s], w[s]) {
      assert FirstVisitedAt(c[s], OrdersFor(c, producers, w)[s], w[s], 0);
    }
  }

  /** Visiting in the orders `o` makes winners `v`, in the orders `o'` winners `w`, and the overall delays differ. */
  ghost predicate OrdersDiffer(c: Comparator, producers: nat, known: set<string>, o: map<string, seq<string>>,
                               v: map<string, string>,
                               o': map<string, seq<string>>, w: map<string, string>) {
    && KeyOrders(c, o) && WinnersVisited(c, producers, o, v)
    && KeyOrders(c, o') && WinnersVisited(c, producers, o', w)
    && OverallDelays(c, producers, known, v) != OverallDelays(c, producers, known, w)
  }

  ghost predicate OrderMatters(c: Comparator, producers: nat, known: set<string>) {
    exists o, v, o', w :: OrdersDiffer(c, producers, known, o, v, o', w)
  }

  /** Two visiting orders give different overall delays exactly when some tie is mixed. */
  lemma OrderMattersExactly(c: Comparator, producers: nat, known: set<string>)
    ensures OrderMatters(c, producers, known) <==> !NoMixedTies(c, producers, known)
  {
    ChoiceMattersExactly(c, producers, known);
    if ChoiceMatters(c, producers, known) {
      var v, w :| Differ(c, producers, known, v, w);
      ChoicesAreVisited(c, producers, v);
      ChoicesAreVisited(c, producers, w);
      assert OrdersDiffer(c, producers, known, OrdersFor(c, producers, v), v, OrdersFor(c, producers, w), w);
    }
    if OrderMatters(c, producers, known) {
      var o, v, o', w :| OrdersDiffer(c, producers, known, o, v, o', w);
      VisitedWin(c, producers, o, v);
      VisitedWin(c, producers, o', w);
      assert Differ(c, producers, known, v, w);
    }
  }

  lemma FirstVisitedUnique(d: Sightings, order: seq<string>, e: string, f: string)
    requires FirstVisited(d, order, e) && FirstVisited(d, order, f)
    ensures e == f
  {
    var i :| FirstVisitedAt(d, order, e, i);
    var j :| FirstVisitedAt(d, order, f, j);
    assert i <= j && j <= i;
  }

  ghost predicate SameWinners(c: Comparator, producers: nat, v: map<string, string>, w: map<string, string>) {
    forall s :: s in c && Counted(c[s], producers) ==> WinnerOf(v, s) == WinnerOf(w, s)
  }

  /** The same visiting orders make the same winners. */
  lemma SameOrdersSameWinners(c: Comparator, producers: nat, o: map<string, seq<string>>, v: map<string, string>,
                              w: map<string, string>)
    requires WinnersVisited(c, producers, o, v) && WinnersVisited(c, producers, o, w)
    ensures SameWinners(c, producers, v, w)
  {
    forall s | s in c && Counted(c[s], producers) ensures WinnerOf(v, s) == WinnerOf(w, s) {
      FirstVisitedUnique(c[s], o[s], v[s], w[s]);
    }
  }

  lemma SameWinnersSameFirsts(c: Comparator, producers: nat, v: map<string, string>, w: map<string, string>, e: string)
    requires SameWinners(c, producers, v, w)
    ensures FirstsOf(c, producers, v, e) == FirstsOf(c, producers, w, e)
  {
  }

  lemma SameWinnersSameDelays(c: Comparator, producers: nat, known: set<string>, v: map<string, string>,
                              w: map<string, string>)
    requires SameWinners(c, producers, v, w)
    ensures OverallDelays(c, producers, known, v) == OverallDelays(c, producers, known, w)
  {
    forall s | s in c
      ensures OthersDelays(c[s], producers, known, WinnerOf(v, s))
              == OthersDelays(c[s], producers, known, WinnerOf(w, s))
    {
      SameWinnerSameDelays(c[s], producers, known, WinnerOf(v, s), WinnerOf(w, s));
    }
    assert DelaysBehind(c, producers, known, v) == DelaysBehind(c, producers, known, w);
  }

  lemma SameWinnerSameDelays(d: Sightings, producers: nat, known: set<string>, e: string, f: string)
    requires Counted(d, producers) ==> e == f
    ensures OthersDelays(d, producers, known, e) == OthersDelays(d, producers, known, f)
  {
  }

  // ----- order independence of the summary -----

  /** Two summaries of one endpoint agree but for its first detections and their share. */
  predicate AgreeButFirsts(a: EndpointSummary, b: EndpointSummary) {
    && a.name == b.name && a.valid == b.valid && a.backfill == b.backfill
    && a.p50 == b.p50 && a.p95 == b.p95 && a.p99 == b.p99
  }

  lemma EndpointsAgree(a: EndpointSummary, b: EndpointSummary, c: Comparator, producers: nat, v: map<string, string>,
                       w: map<string, string>)
    requires IsEndpointSummary(a, c, producers, v) && IsEndpointSummary(b, c, producers, w) && a.name == b.name
    ensures AgreeButFirsts(a, b)
  {
    var x: seq<real> :| multiset(x) == EndpointDelays(c, producers, a.name) && HasFigures(a, x);
    var y: seq<real> :| multiset(y) == EndpointDelays(c, producers, b.name) && HasFigures(b, y);
    FigureCanonical(x, y, 0.50);
    FigureCanonical(x, y, 0.95);
    FigureCanonical(x, y, 0.99);
  }

  ghost predicate ListsAgree(a: seq<EndpointSummary>, b: seq<EndpointSummary>) {
    && EndpointNames(a) == EndpointNames(b)
    && forall s, t :: s in a && t in b && s.name == t.name ==> AgreeButFirsts(s, t)
  }

  lemma {:induction false} EndpointNamed(endpoints: seq<EndpointSummary>, name: string) returns (s: EndpointSummary)
    requires name in EndpointNames(endpoints)
    ensures s in endpoints && s.name == name
  {
    s := endpoints[|endpoints| - 1];
    if s.name != name {
      s := EndpointNamed(endpoints[..|endpoints| - 1], name);
    }
  }

  lemma {:induction false} NamedEndpoint(endpoints: seq<EndpointSummary>, s: EndpointSummary)
    requires s in endpoints
    ensures s.name in EndpointNames(endpoints)
  {
    if s != endpoints[|endpoints| - 1] {
      NamedEndpoint(endpoints[..|endpoints| - 1], s);
    }
  }

  lemma CompareAgrees(a: EndpointSummary, b: EndpointSummary, a': EndpointSummary, b': EndpointSummary)
    requires AgreeButFirsts(a, a') && AgreeButFirsts(b, b')
    ensures ComesFirst(a, b) == ComesFirst(a', b')
  {
  }

  lemma NotBothBefore(a: EndpointSummary, b: EndpointSummary)
    ensures !(ComesFirst(a, b) && ComesFirst(b, a))
  {
    CompareLatencyIsStrictTotal(a, b, a);
    CompareLatencyIsStrictTotal(b, a, b);
  }

  lemma BestAgrees(a: seq<EndpointSummary>, b: seq<EndpointSummary>, x: EndpointSummary, y: EndpointSummary,
                   x': EndpointSummary, y': EndpointSummary)
    requires IsBest(a, x) && IsBest(b, y)
    requires x' in b && AgreeButFirsts(x, x') && y' in a && AgreeButFirsts(y, y')
    ensures x.name == y.name
  {
    CompareAgrees(y, x', y', x);
    NotBothBefore(x, y');
  }

  lemma Counterpart(a: seq<EndpointSummary>, b: seq<EndpointSummary>, x: EndpointSummary) returns (x': EndpointSummary)
    requires ListsAgree(a, b) && x in a
    ensures x' in b && AgreeButFirsts(x, x')
  {
    NamedEndpoint(a, x);
    x' := EndpointNamed(b, x.name);
  }

  lemma SomeFastest(b: seq<EndpointSummary>, g: Option<string>, x: EndpointSummary)
    requires IsFastest(b, g) && x in b && x.valid > 0
    ensures g.Some?
  {
  }

  lemma TwoBest(a: seq<EndpointSummary>, b: seq<EndpointSummary>, x: EndpointSummary, y: EndpointSummary)
    requires IsBest(a, x) && IsBest(b, y) && ListsAgree(a, b)
    ensures x.name == y.name
  {
    var x' := Counterpart(a, b, x);
    var y' := Counterpart(b, a, y);
    BestAgrees(a, b, x, y, x', y');
  }

  lemma FastestMatches(a: seq<EndpointSummary>, b: seq<EndpointSummary>, x: EndpointSummary, g: Option<string>)
    requires IsBest(a, x) && IsFastest(b, g) && ListsAgree(a, b)
    ensures g == Some(x.name)
  {
    var x' := Counterpart(a, b, x);
    SomeFastest(b, g, x');
    var y :| IsBest(b, y) && y.name == g.value;
    TwoBest(a, b, x, y);
  }

  lemma FastestAgrees(a: seq<EndpointSummary>, b: seq<EndpointSummary>, f: Option<string>, g: Option<string>)
    requires IsFastest(a, f) && IsFastest(b, g) && ListsAgree(a, b)
    ensures f == g
  {
    if f.Some? {
      var x :| IsBest(a, x) && x.name == f.value;
      FastestMatches(a, b, x, g);
    } else if g.Some? {
      var y :| IsBest(b, y) && y.name == g.value;
      FastestMatches(b, a, y, f);
    }
  }

  lemma OverallUnique(o: OverallStats, p: OverallStats, delays: multiset<real>)
    requires IsOverall(o, delays) && IsOverall(p, delays)
    ensures o == p
  {
    var x: seq<real> :| multiset(x) == delays && o == BuildOverall(x);
    var y: seq<real> :| multiset(y) == delays && p == BuildOverall(y);
    FigureCanonical(x, y, 0.50);
    FigureCanonical(x, y, 0.90);
    FigureCanonical(x, y, 0.95);
    FigureCanonical(x, y, 0.99);
  }

  /**
   * Any two runs of the comparison over the same data, whatever the iteration orders and the choices
   * among tied winners, agree on everything but first detections and their shares, and the order in
   * which the endpoints are listed; on the overall figures too, unless a tie is mixed.
   */
  lemma SummaryIndependent(c: Comparator, names: seq<string>, r: RunSummary, v: map<string, string>, q: RunSummary,
                           w: map<string, string>)
    requires IsRunSummary(r, c, names, v) && IsRunSummary(q, c, names, w)
    ensures r.total == q.total && r.backfillSignatures == q.backfillSignatures && r.hasData == q.hasData
    ensures r.fastest == q.fastest
    ensures ListsAgree(r.endpoints, q.endpoints)
    ensures NoMixedTies(c, |names|, NameSet(names)) ==> r.overall == q.overall
  {
    EndpointListsAgree(c, names, r, v, q, w);
    FastestAgrees(r.endpoints, q.endpoints, r.fastest, q.fastest);
    if NoMixedTies(c, |names|, NameSet(names)) {
      OverallIndependent(c, |names|, NameSet(names), v, w);
      OverallUnique(r.overall, q.overall, OverallDelays(c, |names|, NameSet(names), v));
    }
  }

  lemma EndpointListsAgree(c: Comparator, names: seq<string>, r: RunSummary, v: map<string, string>, q: RunSummary,
                           w: map<string, string>)
    requires IsRunSummary(r, c, names, v) && IsRunSummary(q, c, names, w)
    ensures ListsAgree(r.endpoints, q.endpoints)
  {
    forall a, b | a in r.endpoints && b in q.endpoints && a.name == b.name ensures AgreeButFirsts(a, b) {
      EndpointsAgree(a, b, c, |names|, v, w);
    }
  }

  /**
   * With the same visiting order in each signature, two summaries agree on every figure, first detections
   * and shares included: the orders of the signatures and of the listing decide nothing else.
   */
  lemma SameKeyOrdersAgree(c: Comparator, names: seq<string>, o: map<string, seq<string>>,
                           r: RunSummary, v: map<string, string>, q: RunSummary, w: map<string, string>)
    requires IsRunSummary(r, c, names, v) && WinnersVisited(c, |names|, o, v)
    requires IsRunSummary(q, c, names, w) && WinnersVisited(c, |names|, o, w)
    ensures r.total == q.total && r.backfillSignatures == q.backfillSignatures && r.hasData == q.hasData
    ensures r.fastest == q.fastest && r.overall == q.overall
    ensures EndpointNames(r.endpoints) == EndpointNames(q.endpoints)
    ensures forall a, b :: a in r.endpoints && b in q.endpoints && a.name == b.name ==> a == b
  {
    SameOrdersSameWinners(c, |names|, o, v, w);
    EndpointListsAgree(c, names, r, v, q, w);
    FastestAgrees(r.endpoints, q.endpoints, r.fastest, q.fastest);
    SameWinnersSameDelays(c, |names|, NameSet(names), v, w);
    OverallUnique(r.overall, q.overall, OverallDelays(c, |names|, NameSet(names), v));
    forall a, b | a in r.endpoints && b in q.endpoints && a.name == b.name ensures a == b {
      SameEndpoint(a, b, c, |names|, v, w);
    }
  }

  lemma SameEndpoint(a: EndpointSummary, b: EndpointSummary, c: Comparator, producers: nat, v: map<string, string>,
                     w: map<string, string>)
    requires IsEndpointSummary(a, c, producers, v) && IsEndpointSummary(b, c, producers, w)
    requires a.name == b.name && SameWinners(c, producers, v, w)
    ensures a == b
  {
    EndpointsAgree(a, b, c, producers, v, w);
    SameWinnersSameFirsts(c, producers, v, w, a.name);
  }

  // ----- a tie that shows -----

  /** One signature, seen at the same time by a configured endpoint and by an unknown one. */
  function MixedTie(s: string, e: string, f: string, elapsed: nat): Comparator {
    var seen := Accumulator.TransactionData(0.0, elapsed, 0.0);
    map[s := map[e := seen, f := seen]]
  }

  lemma MixedTieCounts(s: string, e: string, other: string, f: string, elapsed: nat)
    requires e != other && f != e && f != other
    ensures var d := MixedTie(s, e, f, elapsed)[s];
            Counted(d, 2) && Earliest(d, e) && Earliest(d, f) && d.Keys == {e, f}
    ensures !NoMixedTies(MixedTie(s, e, f, elapsed), 2, NameSet([e, other]))
  {
    var d, known := MixedTie(s, e, f, elapsed)[s], NameSet([e, other]);
    assert d.Keys == {e, f} && |d| == |d.Keys|;
    assert Earliest(d, e) && Earliest(d, f) && e in known && f !in known;
  }

  lemma OneSignatureOverall(c: Comparator, s: string, producers: nat, known: set<string>, w: map<string, string>)
    requires c.Keys == {s}
    ensures OverallDelays(c, producers, known, w) == OthersDelays(c[s], producers, known, WinnerOf(w, s))
  {
    SumOfSplit(DelaysBehind(c, producers, known, w), s);
    assert DelaysBehind(c, producers, known, w) - {s} == map[];
  }

  lemma FiguresPresent(r: RunSummary, c: Comparator, names: seq<string>, w: map<string, string>)
    requires IsRunSummary(r, c, names, w)
    ensures r.overall.p50.None? <==> |OverallDelays(c, |names|, NameSet(names), w)| == 0
  {
    var listed: seq<real> :| multiset(listed) == OverallDelays(c, |names|, NameSet(names), w)
        && r.overall == BuildOverall(listed);
    assert |listed| == |multiset(listed)|;
  }

  lemma MixedTieDelays(s: string, e: string, other: string, f: string, elapsed: nat, v: map<string, string>,
                       w: map<string, string>)
    requires e != other && f != e && f != other && WinnerOf(v, s) == e && WinnerOf(w, s) == f
    ensures var c, known := MixedTie(s, e, f, elapsed), NameSet([e, other]);
            |OverallDelays(c, 2, known, v)| == 0 && |OverallDelays(c, 2, known, w)| == 1
  {
    var c, known := MixedTie(s, e, f, elapsed), NameSet([e, other]);
    MixedTieCounts(s, e, other, f, elapsed);
    assert e in known && f !in known;
    MixedTieSizes(c[s], 2, known, e, f);
    assert c[s].Keys * known - {e} == {};
    OneSignatureOverall(c, s, 2, known, v);
    OneSignatureOverall(c, s, 2, known, w);
  }

  lemma MixedTieFigures(s: string, e: string, other: string, f: string, elapsed: nat,
                        r: RunSummary, v: map<string, string>, q: RunSummary, w: map<string, string>)
    requires e != other && f != e && f != other && WinnerOf(v, s) == e && WinnerOf(w, s) == f
    requires IsRunSummary(r, MixedTie(s, e, f, elapsed), [e, other], v)
    requires IsRunSummary(q, MixedTie(s, e, f, elapsed), [e, other], w)
    ensures r.overall.p50.None? && q.overall.p50.Some?
  {
    MixedTieDelays(s, e, other, f, elapsed, v, w);
    FiguresPresent(r, MixedTie(s, e, f, elapsed), [e, other], v);
    FiguresPresent(q, MixedTie(s, e, f, elapsed), [e, other], w);
  }

  lemma HeadWins(c: Comparator, producers: nat, keyOrders: map<string, seq<string>>, w: map<string, string>, s: string)
    requires WinnersVisited(c, producers, keyOrders, w) && s in c && Counted(c[s], producers)
    requires keyOrders[s] != [] && Earliest(c[s], keyOrders[s][0])
    ensures WinnerOf(w, s) == keyOrders[s][0]
  {
    assert FirstVisitedAt(c[s], keyOrders[s], keyOrders[s][0], 0);
    FirstVisitedUnique(c[s], keyOrders[s], w[s], keyOrders[s][0]);
  }

  /** The comparison of the mixed tie, with its endpoints visited in the given order. */
  method CompareTie(s: string, e: string, other: string, f: string, elapsed: nat, order: seq<string>)
    returns (r: RunSummary)
    requires e != other && f != e && f != other && (order == [e, f] || order == [f, e])
    ensures exists w :: IsRunSummary(r, MixedTie(s, e, f, elapsed), [e, other], w) && WinnerOf(w, s) == order[0]
  {
    var c := MixedTie(s, e, f, elapsed);
    MixedTieCounts(s, e, other, f, elapsed);
    assert Lists(order, c[s].Keys) && Lists([s], c.Keys) && Lists([e, other], NameSet([e, other]));
    r := ComputeRunSummary(c, [e, other], [s], map[s := order], [e, other]);
    ghost var w :| IsRunSummary(r, c, [e, other], w) && WinnersVisited(c, |[e, other]|, map[s := order], w);
    HeadWins(c, 2, map[s := order], w, s);
  }

  /**
   * A mixed tie that shows: with the configured endpoint visited first the overall figures come out
   * missing, with the unknown one first they are there.
   */
  method MixedTieShows(s: string, e: string, other: string, f: string, elapsed: nat)
    returns (r: RunSummary, q: RunSummary)
    requires e != other && f != e && f != other
    ensures r.overall.p50.None? && q.overall.p50.Some?
  {
    r := CompareTie(s, e, other, f, elapsed, [e, f]);
    q := CompareTie(s, e, other, f, elapsed, [f, e]);
    ghost var v :| IsRunSummary(r, MixedTie(s, e, f, elapsed), [e, other], v) && WinnerOf(v, s) == e;
    ghost var w :| IsRunSummary(q, MixedTie(s, e, f, elapsed), [e, other], w) && WinnerOf(w, s) == f;
    MixedTieFigures(s, e, other, f, elapsed, r, v, q, w);
  }

  // ----- conservation -----

  ghost predicate Distinct(names: seq<string>) {
    forall i, j :: 0 <= i < j < |names| ==> names[i] != names[j]
  }

  lemma {:induction false} DistinctSize(names: seq<string>)
    requires Distinct(names)
    ensures |NameSet(names)| == |names|
  {
    if names != [] {
      var init, e := names[..|names| - 1], names[|names| - 1];
      assert forall i :: 0 <= i < |init| ==> init[i] == names[i];
      DistinctSize(init);
      assert names == init + [e];
      assert NameSet(names) == NameSet(init) + {e};
    }
  }

  /** As many sightings as names, all by named endpoints: every named endpoint has one. */
  lemma CompleteMeansAll(d: Sightings, names: seq<string>)
    requires Distinct(names) && names != [] && d.Keys <= NameSet(names) && Complete(d, |names|)
    ensures d.Keys == NameSet(names)
  {
    DistinctSize(names);
    assert |d.Keys| == |d|;
    var missing := NameSet(names) - d.Keys;
    assert NameSet(names) == d.Keys + missing;
    assert |missing| == 0;
  }

  ghost predicate FromNames(c: Comparator, names: seq<string>) {
    names != [] && Distinct(names) && forall s :: s in c ==> c[s].Keys <= NameSet(names)
  }

  /** Two summaries that agree on everything but first detections, their shares, and the listing's order. */
  ghost predicate SummariesAgree(r: RunSummary, q: RunSummary) {
    && r.total == q.total && r.backfillSignatures == q.backfillSignatures && r.hasData == q.hasData
    && r.fastest == q.fastest && r.overall == q.overall
    && ListsAgree(r.endpoints, q.endpoints)
  }

  /** With distinct names and sightings by named endpoints only, nothing else depends on the order. */
  lemma NamedSummaryIndependent(c: Comparator, names: seq<string>, r: RunSummary, v: map<string, string>,
                                q: RunSummary, w: map<string, string>)
    requires FromNames(c, names) && IsRunSummary(r, c, names, v) && IsRunSummary(q, c, names, w)
    ensures SummariesAgree(r, q)
  {
    KnownKeysNeverMix(c, |names|, NameSet(names));
    SummaryIndependent(c, names, r, v, q, w);
  }

  lemma EveryEndpointCountsAll(c: Comparator, names: seq<string>, w: map<string, string>, s: EndpointSummary)
    requires FromNames(c, names) && s.name in names && IsEndpointSummary(s, c, |names|, w)
    ensures s.valid == |CountedSet(c, |names|)| && s.backfill == |BackfilledSet(c, |names|)|
  {
    forall t | t in c && Complete(c[t], |names|) ensures s.name in c[t] {
      CompleteMeansAll(c[t], names);
    }
    assert ValidSet(c, |names|, s.name) == CountedSet(c, |names|);
    assert BackfillSet(c, |names|, s.name) == BackfilledSet(c, |names|);
  }

  function SumFirsts(endpoints: seq<EndpointSummary>): nat {
    if endpoints == [] then 0 else endpoints[|endpoints| - 1].firsts + SumFirsts(endpoints[..|endpoints| - 1])
  }

  function SumFirstShares(endpoints: seq<EndpointSummary>): real {
    if endpoints == [] then 0.0
    else endpoints[|endpoints| - 1].firstShare + SumFirstShares(endpoints[..|endpoints| - 1])
  }

  ghost predicate CountsFirsts(s: EndpointSummary, c: Comparator, producers: nat, w: map<string, string>) {
    s.firsts == |FirstsOf(c, producers, w, s.name)|
  }

  ghost predicate AllCountFirsts(endpoints: seq<EndpointSummary>, c: Comparator, producers: nat,
                                 w: map<string, string>) {
    forall i :: 0 <= i < |endpoints| ==> CountsFirsts(endpoints[i], c, producers, w)
  }

  /** The counted signatures won by one of the listed endpoints. */
  ghost function WonBy(c: Comparator, producers: nat, w: map<string, string>,
                       endpoints: seq<EndpointSummary>): set<string> {
    set t | t in c && Counted(c[t], producers) && WinnerOf(w, t) in EndpointNames(endpoints)
  }

  lemma WonByStep(c: Comparator, producers: nat, w: map<string, string>, endpoints: seq<EndpointSummary>)
    requires endpoints != []
    requires forall i, j :: 0 <= i < j < |endpoints| ==> endpoints[i].name != endpoints[j].name
    ensures var init, e := endpoints[..|endpoints| - 1], endpoints[|endpoints| - 1];
            && WonBy(c, producers, w, endpoints) == WonBy(c, producers, w, init) + FirstsOf(c, producers, w, e.name)
            && WonBy(c, producers, w, init) !! FirstsOf(c, producers, w, e.name)
  {
    var init, e := endpoints[..|endpoints| - 1], endpoints[|endpoints| - 1];
    if e.name in EndpointNames(init) {
      var s := EndpointNamed(init, e.name);
    }
  }

  lemma {:induction false} FirstsPartition(c: Comparator, producers: nat, w: map<string, string>,
                                           endpoints: seq<EndpointSummary>)
    requires forall i, j :: 0 <= i < j < |endpoints| ==> endpoints[i].name != endpoints[j].name
    requires AllCountFirsts(endpoints, c, producers, w)
    ensures SumFirsts(endpoints) == |WonBy(c, producers, w, endpoints)|
  {
    if endpoints == [] {
      assert WonBy(c, producers, w, endpoints) == {};
    } else {
      var init := endpoints[..|endpoints| - 1];
      assert forall i :: 0 <= i < |init| ==> init[i] == endpoints[i];
      FirstsPartition(c, producers, w, init);
      WonByStep(c, producers, w, endpoints);
    }
  }

  predicate SharesGiven(endpoints: seq<EndpointSummary>, total: nat) {
    forall i :: 0 <= i < |endpoints| ==> endpoints[i].firstShare == Share(endpoints[i].firsts, total)
  }

  lemma {:induction false} SharesOfFirsts(endpoints: seq<EndpointSummary>, total: nat)
    requires SharesGiven(endpoints, total)
    ensures SumFirstShares(endpoints) == Share(SumFirsts(endpoints), total)
  {
    if endpoints != [] {
      var init := endpoints[..|endpoints| - 1];
      SharesOfFirsts(init, total);
      if total > 0 {
        QuotientSum(SumFirsts(init) as real, endpoints[|endpoints| - 1].firsts as real, total as real);
      }
    }
  }

  lemma OthersDelaysSize(d: Sightings, names: seq<string>, e: string)
    requires Distinct(names) && names != [] && d.Keys <= NameSet(names)
    requires Counted(d, |names|) ==> Earliest(d, e)
    ensures |OthersDelays(d, |names|, NameSet(names), e)| == if Counted(d, |names|) then |names| - 1 else 0
  {
    if Counted(d, |names|) {
      CompleteMeansAll(d, names);
      DistinctSize(names);
      var others := d.Keys * NameSet(names) - {e};
      SpreadSize(d, Least(d), others);
      assert others + {e} == NameSet(names);
    }
  }

  lemma CountedSplit(c: Comparator, producers: nat, s: string)
    requires s in c
    ensures |CountedSet(c, producers)| == |CountedSet(c - {s}, producers)| + if Counted(c[s], producers) then 1 else 0
  {
    var rest := CountedSet(c - {s}, producers);
    if Counted(c[s], producers) {
      assert CountedSet(c, producers) == rest + {s};
    } else {
      assert CountedSet(c, producers) == rest;
    }
  }

  lemma OverallSizeSplit(c: Comparator, names: seq<string>, w: map<string, string>, s: string)
    requires FromNames(c, names) && Winners(c, |names|, w) && s in c
    ensures |OverallDelays(c, |names|, NameSet(names), w)|
         == |OverallDelays(c - {s}, |names|, NameSet(names), w)| + if Counted(c[s], |names|) then |names| - 1 else 0
  {
    SumOfSplit(DelaysBehind(c, |names|, NameSet(names), w), s);
    BehindRest(c, |names|, NameSet(names), w, s);
    OthersDelaysSize(c[s], names, WinnerOf(w, s));
  }

  lemma WithoutOne(c: Comparator, names: seq<string>, w: map<string, string>, s: string)
    requires FromNames(c, names) && Winners(c, |names|, w)
    ensures FromNames(c - {s}, names) && Winners(c - {s}, |names|, w)
  {
  }

  lemma NothingCounted(c: Comparator, producers: nat, known: set<string>, w: map<string, string>)
    requires c == map[]
    ensures |OverallDelays(c, producers, known, w)| == 0 && |CountedSet(c, producers)| == 0
  {
    assert DelaysBehind(c, producers, known, w) == map[];
    assert CountedSet(c, producers) == {};
  }

  lemma {:induction false} OverallSize(c: Comparator, names: seq<string>, w: map<string, string>, others: nat)
    requires FromNames(c, names) && Winners(c, |names|, w) && others == |names| - 1
    ensures |OverallDelays(c, |names|, NameSet(names), w)| == Times(|CountedSet(c, |names|)|, others)
    decreases |c|
  {
    if c == map[] {
      NothingCounted(c, |names|, NameSet(names), w);
    } else {
      var s :| s in c;
      WithoutOne(c, names, w, s);
      OverallSize(c - {s}, names, w, others);
      OverallSizeSplit(c, names, w, s);
      CountedSplit(c, |names|, s);
    }
  }

  lemma EveryWinnerListed(c: Comparator, names: seq<string>, w: map<string, string>, endpoints: seq<EndpointSummary>)
    requires FromNames(c, names) && Winners(c, |names|, w) && EndpointNames(endpoints) == NameSet(names)
    ensures WonBy(c, |names|, w, endpoints) == CountedSet(c, |names|)
  {
    forall t | t in CountedSet(c, |names|) ensures t in WonBy(c, |names|, w, endpoints) {
      assert w[t] in c[t].Keys;
    }
  }

  lemma FirstsConserved(c: Comparator, names: seq<string>, r: RunSummary, w: map<string, string>)
    requires FromNames(c, names) && IsRunSummary(r, c, names, w)
    ensures SumFirsts(r.endpoints) == r.total
  {
    forall i | 0 <= i < |r.endpoints| ensures CountsFirsts(r.endpoints[i], c, |names|, w) {
      assert IsEndpointSummary(r.endpoints[i], c, |names|, w);
    }
    FirstsPartition(c, |names|, w, r.endpoints);
    EveryWinnerListed(c, names, w, r.endpoints);
  }

  lemma SharesConserved(c: Comparator, names: seq<string>, r: RunSummary, w: map<string, string>)
    requires IsRunSummary(r, c, names, w)
    ensures SumFirstShares(r.endpoints) == Share(SumFirsts(r.endpoints), r.total)
  {
    forall i | 0 <= i < |r.endpoints| ensures r.endpoints[i].firstShare == Share(r.endpoints[i].firsts, r.total) {
      assert IsEndpointSummary(r.endpoints[i], c, |names|, w);
    }
    SharesOfFirsts(r.endpoints, r.total);
  }

  lemma EndpointsConserved(c: Comparator, names: seq<string>, r: RunSummary, w: map<string, string>)
    requires FromNames(c, names) && IsRunSummary(r, c, names, w)
    ensures forall s :: s in r.endpoints ==> s.valid == r.total && s.backfill == r.backfillSignatures
  {
    forall s | s in r.endpoints ensures s.valid == r.total && s.backfill == r.backfillSignatures {
      NamedEndpoint(r.endpoints, s);
      EveryEndpointCountsAll(c, names, w, s);
    }
  }

  lemma SharesSumToOne(c: Comparator, names: seq<string>, r: RunSummary, w: map<string, string>)
    requires FromNames(c, names) && IsRunSummary(r, c, names, w) && r.hasData
    ensures SumFirstShares(r.endpoints) == 1.0
  {
    FirstsConserved(c, names, r, w);
    SharesConserved(c, names, r, w);
    WholeShare(r.total);
  }

  lemma WholeShare(total: nat)
    requires total > 0
    ensures Share(total, total) == 1.0
  {
    QuotientIs(total as real, total as real, 1.0);
  }

  lemma OverallConserved(c: Comparator, names: seq<string>, r: RunSummary, w: map<string, string>)
    requires FromNames(c, names) && IsRunSummary(r, c, names, w)
    ensures |OverallDelays(c, |names|, NameSet(names), w)| == r.total * (|names| - 1)
  {
    OverallSize(c, names, w, |names| - 1);
    TimesIsProduct(r.total, |names| - 1);
  }

  /**
   * With distinct names and sightings by named endpoints only: every endpoint counts every signature,
   * every signature has one winner, the shares add up to one, and each counted signature adds one
   * overall delay for each endpoint but its winner.
   */
  lemma RunConserved(c: Comparator, names: seq<string>, r: RunSummary, w: map<string, string>)
    requires FromNames(c, names) && IsRunSummary(r, c, names, w)
    ensures forall s :: s in r.endpoints ==> s.valid == r.total && s.backfill == r.backfillSignatures
    ensures SumFirsts(r.endpoints) == r.total
    ensures r.hasData ==> SumFirstShares(r.endpoints) == 1.0
    ensures |OverallDelays(c, |names|, NameSet(names), w)| == r.total * (|names| - 1)
  {
    EndpointsConserved(c, names, r, w);
    FirstsConserved(c, names, r, w);
    if r.hasData {
      SharesSumToOne(c, names, r, w);
    }
    OverallConserved(c, names, r, w);
  }
}
