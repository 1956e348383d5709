/** Polling for a nonce hash that differs from the last round's, and the rounds that follow from it. */
module NonceRounds {
  import opened Wrappers

  type Hash = seq<bv8>

  datatype FetchError = RequestFailed | AccountMissing | BadState | Uninitialized | NotAdvanced(hash: Hash)

  type Answer = Result<Hash, FetchError>

  function DeadlineAfter(start: nat, waitMs: nat): nat {
    start + if waitMs < 100 then 100 else waitMs
  }

  /** Readings start before the first poll; each poll but the last is followed by a 100 ms sleep. */
  ghost predicate SleepsCount(now: nat -> nat) {
    now(0) <= now(1) && forall j: nat, k: nat :: 0 < j && k == j + 1 ==> now(j) + 100 <= now(k)
  }

  lemma {:induction false} ReadingsAdvance(now: nat -> nat, k: nat)
    requires SleepsCount(now)
    ensures now(k + 1) >= now(0) + 100 * k
  {
    if k > 0 {
      ReadingsAdvance(now, k - 1);
      assert now(k) + 100 <= now(k + 1);
    }
  }

  /** Poll `k` fetched the old hash, and the deadline had not come. */
  ghost predicate StaleAt(answer: nat -> Answer, now: nat -> nat, previous: Option<Hash>, deadline: nat, k: nat) {
    answer(k).Ok? && Some(answer(k).value) == previous && now(k + 1) < deadline
  }

  /**
   * Poll `polls - 1` decided, with outcome `r`: the polls before it all fetched the old hash before the
   * deadline; it failed itself, or fetched another hash, or fetched the old one at the deadline.
   */
  ghost predicate DecidedBy(answer: nat -> Answer, now: nat -> nat, previous: Option<Hash>, deadline: nat, r: Answer,
                            polls: nat) {
    && 1 <= polls
    && (forall k: nat :: k < polls - 1 ==> StaleAt(answer, now, previous, deadline, k))
    && (if answer(polls - 1).Ok? && Some(answer(polls - 1).value) == previous
        then r == Err(NotAdvanced(answer(polls - 1).value)) && now(polls) >= deadline
        else r == answer(polls - 1))
  }

  /** Only one poll can decide, and only one way. */
  lemma DecisionUnique(answer: nat -> Answer, now: nat -> nat, previous: Option<Hash>, deadline: nat,
                       r: Answer, polls: nat, r': Answer, polls': nat)
    requires DecidedBy(answer, now, previous, deadline, r, polls)
             && DecidedBy(answer, now, previous, deadline, r', polls')
    ensures r == r' && polls == polls'
  {
    var stale := StaleAt(answer, now, previous, deadline, polls - 1);
    var stale' := StaleAt(answer, now, previous, deadline, polls' - 1);
  }

  /** `answer(k)` is what poll `k` fetches and `now(k + 1)` the clock read after it. */
  method FetchFreshNonceHash(answer: nat -> Answer, now: nat -> nat, previous: Option<Hash>, waitMs: nat)
    returns (r: Answer, polls: nat)
    requires SleepsCount(now)
    ensures DecidedBy(answer, now, previous, DeadlineAfter(now(0), waitMs), r, polls)
    ensures polls <= ((if waitMs < 100 then 100 else waitMs) + 99) / 100 + 1
    ensures r.Ok? <==> answer(polls - 1).Ok? && Some(answer(polls - 1).value) != previous
    ensures forall k: nat :: 1 <= k < polls ==> now(k) < now(0) + waitMs || now(k) < now(0) + 100
    ensures r.Err? && answer(polls - 1).Ok? ==> now(polls) >= now(0) + waitMs && now(polls) >= now(0) + 100
  {
    var deadline := now(0) + if waitMs < 100 then 100 else waitMs;
    polls := 0;
    while true
      invariant forall k: nat :: k < polls ==> StaleAt(answer, now, previous, deadline, k)
      invariant forall k: nat :: 1 <= k <= polls ==> now(k) < deadline
      invariant polls <= (deadline - now(0) + 99) / 100
      decreases (deadline - now(0) + 99) / 100 - polls
    {
      var fetched := answer(polls);
      polls := polls + 1;
      if fetched.Err? {
        return fetched, polls;
      }
      if Some(fetched.value) != previous {
        return fetched, polls;
      }
      if now(polls) >= deadline {
        return Err(NotAdvanced(fetched.value)), polls;
      }
      ReadingsAdvance(now, polls - 1);
    }
  }

  /** One round's environment: the stop signal seen before it, its polls and its clock readings. */
  datatype RoundInput = RoundInput(stop: bool, answer: nat -> Answer, now: nat -> nat)

  /** The hash the round before `i` ran under. */
  function PreviousHash(hashes: seq<Hash>, i: nat): Option<Hash>
    requires i <= |hashes|
  {
    if i == 0 then None else Some(hashes[i - 1])
  }

  /** A round that was not stopped, and whose polls came to `r`. */
  ghost predicate FetchedIn(input: RoundInput, previous: Option<Hash>, waitMs: nat, r: Answer) {
    && !input.stop
    && exists polls: nat :: DecidedBy(input.answer, input.now, previous, DeadlineAfter(input.now(0), waitMs), r, polls)
  }

  /** Round `i` ran under the hash its polls came to, and under the id that encodes it. */
  ghost predicate RanAs(input: RoundInput, waitMs: nat, encode: Hash -> string, hashes: seq<Hash>, ids: seq<string>,
                        i: nat)
    requires i < |hashes| == |ids|
  {
    ids[i] == encode(hashes[i]) && FetchedIn(input, PreviousHash(hashes, i), waitMs, Ok(hashes[i]))
  }

  ghost predicate NeighboursDiffer(ids: seq<string>) {
    forall i :: 0 <= i < |ids| - 1 ==> ids[i] != ids[i + 1]
  }

  lemma RanAsKept(input: RoundInput, waitMs: nat, encode: Hash -> string, hashes: seq<Hash>, ids: seq<string>,
                  i: nat, h: Hash)
    requires i < |hashes| == |ids| && RanAs(input, waitMs, encode, hashes, ids, i)
    ensures RanAs(input, waitMs, encode, hashes + [h], ids + [encode(h)], i)
  {
    assert PreviousHash(hashes + [h], i) == PreviousHash(hashes, i);
  }

  /** A new hash is not the previous one, so its id is not the last id. */
  lemma FreshId(input: RoundInput, waitMs: nat, encode: Hash -> string, hashes: seq<Hash>, h: Hash)
    requires forall a, b :: encode(a) == encode(b) ==> a == b
    requires hashes != [] && FetchedIn(input, PreviousHash(hashes, |hashes|), waitMs, Ok(h))
    ensures encode(h) != encode(hashes[|hashes| - 1])
  {
  }

  /**
   * The driver's rounds: stops early on a signal, fails on a failed fetch. No round repeats the
   * nonce of the one before it, so with an injective encoding neighbouring round ids differ.
   */
  method RunRounds(rounds: seq<RoundInput>, waitMs: nat, encode: Hash -> string)
    returns (hashes: seq<Hash>, ids: seq<string>, failure: Option<FetchError>)
    requires forall i :: 0 <= i < |rounds| ==> SleepsCount(rounds[i].now)
    requires forall a, b :: encode(a) == encode(b) ==> a == b
    ensures |hashes| == |ids| <= |rounds|
    ensures NeighboursDiffer(ids)
    ensures forall i :: 0 <= i < |ids| ==> RanAs(rounds[i], waitMs, encode, hashes, ids, i)
    ensures failure.None? && |ids| < |rounds| ==> rounds[|ids|].stop
    ensures failure.Some? ==>
              |ids| < |rounds| && FetchedIn(rounds[|ids|], PreviousHash(hashes, |ids|), waitMs, Err(failure.value))
  {
    hashes, ids := [], [];
    var previous: Option<Hash> := None;
    for i := 0 to |rounds|
      invariant |ids| == |hashes| == i && previous == PreviousHash(hashes, i)
      invariant NeighboursDiffer(ids)
      invariant forall j :: 0 <= j < i ==> RanAs(rounds[j], waitMs, encode, hashes, ids, j)
      invariant i > 0 ==> ids[i - 1] == encode(hashes[i - 1])
    {
      if rounds[i].stop {
        return hashes, ids, None;
      }
      var fetched, polls := FetchFreshNonceHash(rounds[i].answer, rounds[i].now, previous, waitMs);
      assert FetchedIn(rounds[i], previous, waitMs, fetched);
      if fetched.Err? {
        return hashes, ids, Some(fetched.error);
      }
      if i > 0 {
        FreshId(rounds[i], waitMs, encode, hashes, fetched.value);
      }
      forall j | 0 <= j < i
        ensures RanAs(rounds[j], waitMs, encode, hashes + [fetched.value], ids + [encode(fetched.value)], j)
      {
        RanAsKept(rounds[j], waitMs, encode, hashes, ids, j, fetched.value);
      }
      previous := Some(fetched.value);
      hashes := hashes + [fetched.value];
      ids := ids + [encode(fetched.value)];
    }
    failure := None;
  }
}
