/** The final summary: providers by name, sorted latencies, overall figures. */
module Summary {
  import opened OrderStatistics
  import opened Ledger
  import Text

  datatype ProviderSummary = ProviderSummary(name: string, landed: nat, latenciesMs: seq<real>)

  datatype LandingSummary = LandingSummary(
    providers: seq<ProviderSummary>, totalLanded: nat, overall: Overall, rounds: nat)

  predicate ByName(providers: seq<ProviderSummary>) {
    forall i, j :: 0 <= i < j < |providers| ==> Text.Less(providers[i].name, providers[j].name)
  }

  /** `sort_by` on names, for providers whose names differ. */
  function InsertByName(p: ProviderSummary, s: seq<ProviderSummary>): (r: seq<ProviderSummary>)
    requires ByName(s) && forall q :: q in s ==> q.name != p.name
    ensures ByName(r) && r != [] && multiset(r) == multiset(s) + multiset{p}
    ensures r[0] == if s == [] || Text.Less(p.name, s[0].name) then p else s[0]
  {
    if s == [] || Text.Less(p.name, s[0].name) then
      ConsByName(p, s);
      [p] + s
    else
      Text.LessTotal(p.name, s[0].name);
      assert s == [s[0]] + s[1..];
      var t := InsertByName(p, s[1..]);
      ConsByName(s[0], t);
      [s[0]] + t
  }

  lemma ConsByName(p: ProviderSummary, s: seq<ProviderSummary>)
    requires ByName(s) && (s == [] || Text.Less(p.name, s[0].name))
    ensures ByName([p] + s)
  {
    var r := [p] + s;
    forall i, j | 0 <= i < j < |r| ensures Text.Less(r[i].name, r[j].name) {
      assert r[j] == s[j - 1];
      if i > 0 {
        assert r[i] == s[i - 1];
      } else if j > 1 {
        Text.LessTransitive(p.name, s[0].name, s[j - 1].name);
      }
    }
  }

  predicate DistinctNames(s: seq<ProviderSummary>) {
    forall i, j :: 0 <= i < j < |s| ==> s[i].name != s[j].name
  }

  lemma DistinctTail(s: seq<ProviderSummary>, t: seq<ProviderSummary>)
    requires DistinctNames(s) && s != [] && multiset(t) == multiset(s[1..])
    ensures DistinctNames(s[1..])
    ensures forall q :: q in t ==> q.name != s[0].name
    ensures multiset(s) == multiset(t) + multiset{s[0]}
  {
    assert s == [s[0]] + s[1..];
    forall q | q in t ensures q.name != s[0].name {
      assert q in multiset(t);
      assert q in multiset(s[1..]);
      var i :| 1 <= i < |s| && s[i] == q;
    }
  }

  function SortByName(s: seq<ProviderSummary>): (r: seq<ProviderSummary>)
    requires DistinctNames(s)
    ensures ByName(r) && multiset(r) == multiset(s)
  {
    if s == [] then []
    else
      var t := SortByName(s[1..]);
      DistinctTail(s, t);
      InsertByName(s[0], t)
  }

  function FromMetrics(name: string, m: ProviderMetrics): ProviderSummary {
    ProviderSummary(name, m.landed, Sort(m.latenciesMs))
  }

  /** Every recorded latency of every provider. */
  ghost function AllLatencies(metrics: map<string, ProviderMetrics>): multiset<real>
    decreases |metrics|
  {
    if metrics == map[] then multiset{}
    else
      var p :| p in metrics;
      multiset(metrics[p].latenciesMs) + AllLatencies(metrics - {p})
  }

  lemma {:induction false} AllLatenciesSplit(metrics: map<string, ProviderMetrics>, p: string)
    requires p in metrics
    ensures AllLatencies(metrics) == multiset(metrics[p].latenciesMs) + AllLatencies(metrics - {p})
    decreases |metrics|
  {
    var q :| q in metrics && AllLatencies(metrics) == multiset(metrics[q].latenciesMs) + AllLatencies(metrics - {q});
    if q != p {
      AllLatenciesSplit(metrics - {q}, p);
      AllLatenciesSplit(metrics - {p}, q);
      assert metrics - {q} - {p} == metrics - {p} - {q};
    }
  }

  /** What a summary of `b` has to be, whatever order the metrics were visited in. */
  ghost predicate Summarises(r: LandingSummary, b: Book) {
    && ByName(r.providers)
    && (forall s :: s in r.providers <==> s.name in b.metrics && s == FromMetrics(s.name, b.metrics[s.name]))
    && r.totalLanded == |b.landedRounds|
    && r.rounds == b.roundsAttempted
    && exists latencies: seq<real> :: multiset(latencies) == AllLatencies(b.metrics)
        && r.overall == ComputeOverall(latencies)
  }

  lemma {:induction false} ByNameUnique(a: seq<ProviderSummary>, b: seq<ProviderSummary>)
    requires ByName(a) && ByName(b) && forall s :: s in a <==> s in b
    ensures a == b
  {
    assert b != [] ==> b[0] in a;
    if a != [] {
      assert a[0] in b;
      assert b[0] in a;
      HeadIsLeast(a, b[0]);
      HeadIsLeast(b, a[0]);
      forall s ensures s in a[1..] <==> s in b[1..] {
        TailMembers(a, s);
        TailMembers(b, s);
      }
      ByNameUnique(a[1..], b[1..]);
      assert a == [a[0]] + a[1..] && b == [b[0]] + b[1..];
    }
  }

  lemma HeadIsLeast(a: seq<ProviderSummary>, s: ProviderSummary)
    requires ByName(a) && s in a
    ensures s == a[0] || (Text.Less(a[0].name, s.name) && !Text.Less(s.name, a[0].name))
  {
    var i :| 0 <= i < |a| && a[i] == s;
    if i > 0 && Text.Less(s.name, a[0].name) {
      Text.LessTransitive(s.name, a[0].name, s.name);
      Text.LessIrreflexive(s.name);
    }
  }

  lemma TailMembers(a: seq<ProviderSummary>, s: ProviderSummary)
    requires ByName(a) && a != []
    ensures s in a[1..] <==> s in a && s != a[0]
  {
    if s in a[1..] {
      var i :| 1 <= i < |a| && a[i] == s;
      Text.LessIrreflexive(s.name);
    }
  }

  /** `finalize` is canonical: a book has only one summary. */
  lemma SummaryUnique(r: LandingSummary, s: LandingSummary, b: Book)
    requires Summarises(r, b) && Summarises(s, b)
    ensures r == s
  {
    ByNameUnique(r.providers, s.providers);
    var x: seq<real> :| multiset(x) == AllLatencies(b.metrics) && r.overall == ComputeOverall(x);
    var y: seq<real> :| multiset(y) == AllLatencies(b.metrics) && s.overall == ComputeOverall(y);
    OverallCanonical(x, y);
  }
}
