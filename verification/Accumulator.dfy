/** A producer's record of the earliest sighting of each signature. */
module Accumulator {

  datatype TransactionData = TransactionData(wallclockSecs: real, elapsed: nat, startWallclockSecs: real)

  datatype Sighting = Sighting(signature: string, data: TransactionData)

  /** `k` holds the first of the sightings of its signature with the least elapsed time. */
  ghost predicate IsEarliest(history: seq<Sighting>, k: int) {
    && 0 <= k < |history|
    && forall j :: 0 <= j < |history| && history[j].signature == history[k].signature ==>
         && history[k].data.elapsed <= history[j].data.elapsed
         && (j < k ==> history[k].data.elapsed < history[j].data.elapsed)
  }

  /** Sighting `n` is earlier than every one of its signature before it. */
  predicate NewMinimum(history: seq<Sighting>, n: nat)
    requires n < |history|
  {
    forall j :: 0 <= j < n && history[j].signature == history[n].signature ==>
      history[n].data.elapsed < history[j].data.elapsed
  }

  /** `data` belongs to the earliest sighting of `signature`. */
  ghost predicate Earliest(history: seq<Sighting>, signature: string, data: TransactionData) {
    exists k :: IsEarliest(history, k) && history[k] == Sighting(signature, data)
  }

  ghost predicate Seen(history: seq<Sighting>, signature: string) {
    exists j :: 0 <= j < |history| && history[j].signature == signature
  }

  lemma EarliestKept(history: seq<Sighting>, x: Sighting, signature: string, data: TransactionData)
    requires Earliest(history, signature, data)
    requires x.signature == signature ==> data.elapsed <= x.data.elapsed
    ensures Earliest(history + [x], signature, data)
  {
    var k :| IsEarliest(history, k) && history[k] == Sighting(signature, data);
    assert IsEarliest(history + [x], k);
  }

  lemma EarliestReplaced(history: seq<Sighting>, x: Sighting)
    requires NewMinimum(history + [x], |history|)
    ensures Earliest(history + [x], x.signature, x.data)
  {
    var all := history + [x];
    forall j | 0 <= j < |history| && all[j].signature == x.signature ensures x.data.elapsed < all[j].data.elapsed {
    }
    assert IsEarliest(all, |history|);
  }

  lemma NewMinimumAgainst(history: seq<Sighting>, x: Sighting, data: TransactionData)
    requires Earliest(history, x.signature, data)
    ensures NewMinimum(history + [x], |history|) <==> x.data.elapsed < data.elapsed
  {
    var k :| IsEarliest(history, k) && history[k] == Sighting(x.signature, data);
    assert (history + [x])[k] == history[k];
    assert forall j :: 0 <= j < |history| ==> (history + [x])[j] == history[j];
  }

  lemma SeenStep(history: seq<Sighting>, x: Sighting, signature: string)
    ensures Seen(history + [x], signature) <==> Seen(history, signature) || x.signature == signature
  {
    assert (history + [x])[|history|] == x;
    assert forall j :: 0 <= j < |history| ==> (history + [x])[j] == history[j];
  }

  class TransactionAccumulator {
    var entries: map<string, TransactionData>
    ghost var history: seq<Sighting>

    ghost predicate Valid()
      reads this
    {
      forall s :: (s in entries <==> Seen(history, s)) && (s in entries ==> Earliest(history, s, entries[s]))
    }

    constructor ()
      ensures Valid() && history == []
    {
      entries, history := map[], [];
    }

    /** The entries are the minima of the history; the answer is whether this sighting is a new one. */
    method Record(signature: string, data: TransactionData) returns (updated: bool)
      requires Valid()
      modifies this
      ensures Valid() && history == old(history) + [Sighting(signature, data)]
      ensures updated <==> NewMinimum(history, |history| - 1)
      ensures updated <==> forall x :: x in old(history) && x.signature == signature ==> data.elapsed < x.data.elapsed
    {
      ghost var before, x := history, Sighting(signature, data);
      history := history + [x];
      if signature !in entries {
        entries := entries[signature := data];
        updated := true;
        assert !Seen(before, signature);
        assert NewMinimum(history, |before|);
      } else {
        NewMinimumAgainst(before, x, entries[signature]);
        if data.elapsed < entries[signature].elapsed {
          entries := entries[signature := data];
          updated := true;
        } else {
          updated := false;
        }
      }
      forall s ensures (s in entries <==> Seen(history, s)) && (s in entries ==> Earliest(history, s, entries[s])) {
        SeenStep(before, x, s);
        if s == signature && updated {
          EarliestReplaced(before, x);
        } else if s in entries {
          EarliestKept(before, x, s, entries[s]);
        }
      }
    }

    method Len() returns (n: nat)
      requires Valid()
      ensures n == |Signatures(history)|
    {
      n := |entries|;
      forall s ensures s in entries.Keys <==> s in Signatures(history) {
        SignaturesContain(history, s);
      }
      assert entries.Keys == Signatures(history);
      assert |entries.Keys| == |entries|;
    }
  }

  // ----- how often a producer counts a signature -----

  function Signatures(history: seq<Sighting>): set<string> {
    if history == [] then {}
    else Signatures(history[..|history| - 1]) + {history[|history| - 1].signature}
  }

  lemma {:induction false} SignaturesContain(history: seq<Sighting>, s: string)
    ensures s in Signatures(history) <==> Seen(history, s)
  {
    if history != [] {
      var init := history[..|history| - 1];
      SignaturesContain(init, s);
      SeenStep(init, history[|history| - 1], s);
      assert history == init + [history[|history| - 1]];
    }
  }

  /** How many of the sightings `record` answered `true` to. */
  function UpdateCount(history: seq<Sighting>): nat {
    if history == [] then 0
    else UpdateCount(history[..|history| - 1]) + if NewMinimum(history, |history| - 1) then 1 else 0
  }

  ghost predicate ElapsedNeverDecreases(history: seq<Sighting>) {
    forall i, j :: 0 <= i < j < |history| ==> history[i].data.elapsed <= history[j].data.elapsed
  }

  /** Each signature is counted at least once, and exactly once while the clock does not run backwards. */
  lemma {:induction false} CountedOncePerSignature(history: seq<Sighting>)
    ensures UpdateCount(history) >= |Signatures(history)|
    ensures ElapsedNeverDecreases(history) ==> UpdateCount(history) == |Signatures(history)|
  {
    if history != [] {
      var init, last := history[..|history| - 1], history[|history| - 1];
      assert forall j :: 0 <= j < |init| ==> init[j] == history[j];
      CountedOncePerSignature(init);
      SignaturesContain(init, last.signature);
      if last.signature in Signatures(init) {
        var j :| 0 <= j < |init| && init[j].signature == last.signature;
        assert history[j].signature == last.signature;
        assert Signatures(history) == Signatures(init);
      }
    }
  }

  /** How many of the sightings of `signature` `record` answered `true` to. */
  function AnswersFor(history: seq<Sighting>, signature: string): nat {
    if history == [] then 0
    else
      AnswersFor(history[..|history| - 1], signature)
      + if history[|history| - 1].signature == signature && NewMinimum(history, |history| - 1) then 1 else 0
  }

  lemma AnswersForStep(history: seq<Sighting>, x: Sighting, signature: string)
    ensures AnswersFor(history + [x], signature) ==
            AnswersFor(history, signature)
            + if x.signature == signature && NewMinimum(history + [x], |history|) then 1 else 0
    ensures UpdateCount(history + [x]) == UpdateCount(history) + if NewMinimum(history + [x], |history|) then 1 else 0
  {
    assert (history + [x])[..|history|] == history;
  }

  ghost predicate IsFirst(history: seq<Sighting>, i: int, signature: string) {
    && 0 <= i < |history| && history[i].signature == signature
    && forall k :: 0 <= k < i ==> history[k].signature != signature
  }

  /** No later sighting of `signature` is earlier than the first one recorded. */
  ghost predicate FirstIsLeast(history: seq<Sighting>, signature: string) {
    forall i, j :: IsFirst(history, i, signature) && i < j < |history| && history[j].signature == signature ==>
      history[i].data.elapsed <= history[j].data.elapsed
  }

  lemma {:induction false} FirstOf(history: seq<Sighting>, signature: string) returns (i: int)
    requires Seen(history, signature)
    ensures IsFirst(history, i, signature)
  {
    var init := history[..|history| - 1];
    assert history == init + [history[|history| - 1]];
    SeenStep(init, history[|history| - 1], signature);
    if Seen(init, signature) {
      i := FirstOf(init, signature);
    } else {
      i := |init|;
    }
  }

  lemma FirstKept(history: seq<Sighting>, x: Sighting, signature: string, i: int)
    requires IsFirst(history, i, signature)
    ensures forall j :: IsFirst(history + [x], j, signature) <==> j == i
    ensures forall j :: IsFirst(history, j, signature) <==> j == i
  {
    var all := history + [x];
    assert all[i] == history[i];
    forall j ensures IsFirst(all, j, signature) <==> j == i {
      if 0 <= j < |history| {
        assert all[j] == history[j];
      }
    }
  }

  /** A repeated sighting is a new minimum only if it is earlier than the first. */
  lemma RepeatAnswered(history: seq<Sighting>, x: Sighting)
    requires Seen(history, x.signature)
    ensures FirstIsLeast(history + [x], x.signature) <==>
            FirstIsLeast(history, x.signature) && !NewMinimum(history + [x], |history|)
  {
    var all := history + [x];
    var i := FirstOf(history, x.signature);
    FirstKept(history, x, x.signature, i);
    assert forall j :: 0 <= j < |history| ==> all[j] == history[j];
    if FirstIsLeast(history, x.signature) && !NewMinimum(all, |history|) {
      var j :| 0 <= j < |history| && all[j].signature == x.signature && all[j].data.elapsed <= x.data.elapsed;
      assert history[i].data.elapsed <= history[j].data.elapsed;
    }
    if FirstIsLeast(all, x.signature) {
      assert all[i].data.elapsed <= all[|history|].data.elapsed;
    }
  }

  lemma OtherUnanswered(history: seq<Sighting>, x: Sighting, signature: string)
    requires x.signature != signature
    ensures FirstIsLeast(history + [x], signature) <==> FirstIsLeast(history, signature)
  {
    var all := history + [x];
    assert forall j :: 0 <= j < |history| ==> all[j] == history[j];
    forall i ensures IsFirst(all, i, signature) <==> IsFirst(history, i, signature) {
    }
  }

  lemma FirstAnswered(history: seq<Sighting>, x: Sighting)
    requires !Seen(history, x.signature)
    ensures NewMinimum(history + [x], |history|) && FirstIsLeast(history + [x], x.signature)
  {
    assert forall j :: 0 <= j < |history| ==> (history + [x])[j] == history[j];
  }

  /** `record` answers `true` once for a signature exactly when it is seen and never seen earlier than at first. */
  lemma {:induction false} AnsweredOnceExactly(history: seq<Sighting>, signature: string)
    ensures AnswersFor(history, signature) >= 1 <==> Seen(history, signature)
    ensures AnswersFor(history, signature) == 1 <==> Seen(history, signature) && FirstIsLeast(history, signature)
  {
    if history != [] {
      var init, x := history[..|history| - 1], history[|history| - 1];
      assert history == init + [x];
      AnsweredOnceExactly(init, signature);
      AnswersForStep(init, x, signature);
      SeenStep(init, x, signature);
      if x.signature != signature {
        OtherUnanswered(init, x, signature);
      } else if Seen(init, signature) {
        RepeatAnswered(init, x);
      } else {
        FirstAnswered(init, x);
      }
    }
  }

  /** While elapsed times never decrease, that is once for every signature seen. */
  lemma MonotoneAnsweredOnce(history: seq<Sighting>, signature: string)
    requires ElapsedNeverDecreases(history)
    ensures AnswersFor(history, signature) == if Seen(history, signature) then 1 else 0
  {
    AnsweredOnceExactly(history, signature);
  }
}
