/**
 * Producers share an atomic counter, an atomic flag and a broadcast. Each atomic operation, and
 * each poll of the biased select, is a step of its own; steps of different producers interleave freely.
 */
module SharedTarget {
  import opened Wrappers
  import opened Accumulator

  /**
   * `left` counts the transactions of the current stream item still to be looked at. `Committed` is
   * past the shutdown poll of a select and about to poll its stream; `Parked` waits on shutdown only.
   */
  datatype Pc =
    | AtSelect
    | Committed
    | Parked
    | InBatch(left: nat)
    | Adding(left: nat)
    | Ticketed(ticket: nat, left: nat)
    | Swapping(ticket: nat, left: nat)
    | Broadcasting(ticket: nat, left: nat)
    | Stopped
    | Exited

  /**
   * `parks`: the select's pattern drops the stream branch when the stream ends, rather than looping.
   * `history` lists the sightings given to the accumulator, `enveloped` for each whether an envelope could
   * be built; `issued` and `counted` the tickets taken, and the signature each was taken for.
   */
  datatype Producer = Producer(maxBatch: nat, parks: bool, pc: Pc, history: seq<Sighting>, enveloped: seq<bool>,
                               issued: seq<nat>, counted: seq<string>)

  /** `winner` remembers who found the flag clear; it is not part of the shared state. */
  datatype State = State(target: Option<nat>, counter: nat, flag: bool, broadcasts: nat,
                         winner: Option<nat>, producers: seq<Producer>)

  datatype Move =
    | SeeShutdown | PollShutdown | StreamPending | StreamEnded | TakeItem(size: nat)
    | LogFails | SkipTransaction | Record(sighting: Sighting, enveloped: bool)
    | FetchAdd | CheckTarget | SwapFlag | Broadcast | FinishItem

  predicate Enabled(s: State, p: nat, m: Move) {
    p < |s.producers| &&
    var me := s.producers[p];
    match m
    case SeeShutdown => (me.pc.AtSelect? || me.pc.Parked?) && s.broadcasts > 0
    case PollShutdown => me.pc.AtSelect? && s.broadcasts == 0
    case StreamPending => me.pc.Committed?
    case StreamEnded => me.pc.Committed?
    case TakeItem(size) => me.pc.Committed? && size <= me.maxBatch
    case LogFails => me.pc.InBatch? && me.pc.left > 0
    case SkipTransaction => me.pc.InBatch? && me.pc.left > 0
    case Record(_, _) => me.pc.InBatch? && me.pc.left > 0
    case FetchAdd => me.pc.Adding?
    case CheckTarget => me.pc.Ticketed? && s.target.Some?
    case SwapFlag => me.pc.Swapping?
    case Broadcast => me.pc.Broadcasting?
    case FinishItem => me.pc.InBatch? && me.pc.left == 0
  }

  function At(s: State, p: nat, pc: Pc): State
    requires p < |s.producers|
  {
    s.(producers := s.producers[p := s.producers[p].(pc := pc)])
  }

  function LastSignature(history: seq<Sighting>): seq<string> {
    if history == [] then [] else [history[|history| - 1].signature]
  }

  function Do(s: State, p: nat, m: Move): State
    requires Enabled(s, p, m)
  {
    var me := s.producers[p];
    match m
    case SeeShutdown => At(s, p, Stopped)
    case PollShutdown => At(s, p, Committed)
    case StreamPending => At(s, p, AtSelect)
    case StreamEnded => At(s, p, if me.parks then Parked else AtSelect)
    case TakeItem(size) => At(s, p, InBatch(size))
    case LogFails => At(s, p, Exited)
    case SkipTransaction => At(s, p, InBatch(me.pc.left - 1))
    case Record(x, enveloped) =>
      var counts := NewMinimum(me.history + [x], |me.history|) && enveloped && s.target.Some?;
      s.(producers := s.producers[p := me.(
           history := me.history + [x], enveloped := me.enveloped + [enveloped],
           pc := if counts then Adding(me.pc.left - 1) else InBatch(me.pc.left - 1))])
    case FetchAdd =>
      var t := s.counter + 1;
      s.(counter := t,
         producers := s.producers[p := me.(pc := Ticketed(t, me.pc.left), issued := me.issued + [t],
                                           counted := me.counted + LastSignature(me.history))])
    case CheckTarget =>
      At(s, p, if me.pc.ticket >= s.target.value then Swapping(me.pc.ticket, me.pc.left) else InBatch(me.pc.left))
    case SwapFlag =>
      if s.flag then At(s, p, InBatch(me.pc.left))
      else At(s, p, Broadcasting(me.pc.ticket, me.pc.left)).(flag := true, winner := Some(p))
    case Broadcast => At(s, p, InBatch(me.pc.left)).(broadcasts := s.broadcasts + 1)
    case FinishItem => At(s, p, AtSelect)
  }

  ghost predicate Next(s: State, s': State) {
    exists p, m :: Enabled(s, p, m) && s' == Do(s, p, m)
  }

  predicate Untouched(p: Producer) {
    p.pc == AtSelect && p.history == [] && p.enveloped == [] && p.issued == [] && p.counted == []
  }

  predicate Initial(s: State) {
    && s.counter == 0 && !s.flag && s.broadcasts == 0 && s.winner == None
    && forall p :: 0 <= p < |s.producers| ==> Untouched(s.producers[p])
  }

  ghost predicate Steps(run: seq<State>) {
    run != [] && forall i :: 0 <= i < |run| - 1 ==> Next(run[i], run[i + 1])
  }

  ghost predicate IsRun(run: seq<State>) {
    Steps(run) && Initial(run[0])
  }

  // ----- tickets -----

  ghost predicate Holds(s: State, p: nat, t: nat) {
    p < |s.producers| && t in s.producers[p].issued
  }

  ghost predicate Issued(s: State, t: nat) {
    exists p: nat :: Holds(s, p, t)
  }

  /** The tickets handed out are exactly 1..counter, each to one producer and once. */
  ghost predicate TicketsExact(s: State) {
    && (forall t: nat :: Issued(s, t) <==> 1 <= t <= s.counter)
    && (forall p: nat, q: nat, t: nat :: Holds(s, p, t) && Holds(s, q, t) ==> p == q)
    && (forall p, i, j :: 0 <= p < |s.producers| && 0 <= i < j < |s.producers[p].issued| ==>
          s.producers[p].issued[i] < s.producers[p].issued[j])
  }

  lemma TicketsStep(s: State, p: nat, m: Move)
    requires TicketsExact(s) && Enabled(s, p, m)
    ensures TicketsExact(Do(s, p, m))
  {
    var s' := Do(s, p, m);
    if m.FetchAdd? {
      assert forall q: nat, t: nat :: Holds(s', q, t) <==> Holds(s, q, t) || (q == p && t == s'.counter);
      assert forall q: nat, t: nat :: Holds(s, q, t) ==> Issued(s, t);
      forall t: nat ensures Issued(s', t) <==> 1 <= t <= s'.counter {
        assert Holds(s', p, s'.counter);
        if Issued(s, t) {
          var q: nat :| Holds(s, q, t);
          assert Holds(s', q, t);
        }
      }
      forall q, i, j | 0 <= q < |s'.producers| && 0 <= i < j < |s'.producers[q].issued|
        ensures s'.producers[q].issued[i] < s'.producers[q].issued[j]
      {
        assert Holds(s, q, s'.producers[q].issued[i]);
      }
    } else {
      assert forall q: nat, t: nat :: Holds(s', q, t) <==> Holds(s, q, t);
      assert forall t: nat :: Issued(s', t) <==> Issued(s, t);
    }
  }

  // ----- the flag and the broadcast -----

  /** A ticket at or past the target that has not yet led to a swap. */
  predicate Undecided(pc: Pc, t: nat) {
    (pc.Ticketed? || pc.Swapping?) && pc.ticket == t
  }

  predicate ProducerOk(s: State, p: nat)
    requires p < |s.producers|
  {
    var me := s.producers[p];
    && (forall i :: 0 <= i < |me.issued| ==> 1 <= me.issued[i] <= s.counter)
    && (me.pc.Ticketed? || me.pc.Swapping? || me.pc.Broadcasting? ==> 1 <= me.pc.ticket <= s.counter && s.target.Some?)
    && (me.pc.Swapping? || me.pc.Broadcasting? ==> me.pc.ticket >= s.target.value)
    && (me.pc.Adding? ==> s.target.Some?)
    && (me.pc.Broadcasting? ==> s.winner == Some(p) && s.broadcasts == 0)
    && (me.issued != [] ==> s.target.Some?)
    && (me.issued != [] ==> forall i :: 0 <= i < |me.issued| && me.issued[i] >= s.target.value ==>
          s.flag || Undecided(me.pc, me.issued[i]))
    && (me.pc.InBatch? ==> me.pc.left <= me.maxBatch)
    && (me.pc.Adding? || me.pc.Ticketed? || me.pc.Swapping? || me.pc.Broadcasting? ==> me.pc.left < me.maxBatch)
  }

  predicate FlagOk(s: State) {
    && (s.flag <==> s.winner.Some?)
    && (s.flag ==> s.target.Some? && 1 <= s.counter && s.target.value <= s.counter)
    && s.broadcasts <= 1
    && (s.broadcasts == 1 ==> s.flag)
    && (s.flag ==> s.winner.value < |s.producers|)
    && (s.flag && s.broadcasts == 0 ==> s.producers[s.winner.value].pc.Broadcasting?)
  }

  ghost predicate Inv(s: State) {
    TicketsExact(s) && FlagOk(s) && forall p :: 0 <= p < |s.producers| ==> ProducerOk(s, p)
  }

  lemma OthersUnmoved(s: State, q: nat, m: Move, p: nat)
    requires Enabled(s, q, m) && q != p
    ensures |Do(s, q, m).producers| == |s.producers|
    ensures p < |s.producers| ==> Do(s, q, m).producers[p] == s.producers[p]
  {
  }

  /** The shared state only moves on, and only the producer that found the flag clear broadcasts. */
  predicate MovesOn(s: State, s': State, p: nat) {
    && s'.target == s.target && s.counter <= s'.counter
    && (s.flag ==> s'.flag && s'.winner == s.winner)
    && (s'.broadcasts != s.broadcasts ==> s.winner == Some(p))
  }

  lemma SharedMovesOn(s: State, p: nat, m: Move)
    requires Enabled(s, p, m) && FlagOk(s) && ProducerOk(s, p)
    ensures MovesOn(s, Do(s, p, m), p)
  {
  }

  lemma UnmovedStaysOk(s: State, s': State, p: nat, q: nat)
    requires MovesOn(s, s', p) && FlagOk(s) && p != q < |s.producers| == |s'.producers|
    requires ProducerOk(s, q) && s'.producers[q] == s.producers[q]
    ensures ProducerOk(s', q)
  {
  }

  lemma OthersStayOk(s: State, p: nat, m: Move, q: nat)
    requires Enabled(s, p, m) && FlagOk(s) && ProducerOk(s, p) && q < |s.producers| && q != p && ProducerOk(s, q)
    ensures ProducerOk(Do(s, p, m), q)
  {
    OthersUnmoved(s, p, m, q);
    SharedMovesOn(s, p, m);
    UnmovedStaysOk(s, Do(s, p, m), p, q);
  }

  lemma MoverStaysOk(s: State, p: nat, m: Move)
    requires Enabled(s, p, m) && FlagOk(s) && ProducerOk(s, p)
    ensures ProducerOk(Do(s, p, m), p)
  {
    var me, me' := s.producers[p], Do(s, p, m).producers[p];
    if m.FetchAdd? {
      assert forall i :: 0 <= i < |me.issued| ==> me'.issued[i] == me.issued[i];
    }
  }

  lemma FlagStaysOk(s: State, p: nat, m: Move)
    requires Enabled(s, p, m) && FlagOk(s) && ProducerOk(s, p)
    ensures FlagOk(Do(s, p, m))
  {
  }

  lemma StepKeepsInvariant(s: State, p: nat, m: Move)
    requires Inv(s) && Enabled(s, p, m)
    ensures Inv(Do(s, p, m))
  {
    FlagStaysOk(s, p, m);
    TicketsStep(s, p, m);
    MoverStaysOk(s, p, m);
    forall q | 0 <= q < |s.producers| && q != p ensures ProducerOk(Do(s, p, m), q) {
      OthersStayOk(s, p, m, q);
    }
  }

  lemma NextKeepsInvariant(s: State, s': State)
    requires Inv(s) && Next(s, s')
    ensures Inv(s')
  {
    var p, m :| Enabled(s, p, m) && s' == Do(s, p, m);
    StepKeepsInvariant(s, p, m);
  }

  lemma {:induction false} RunKeepsInvariant(run: seq<State>, n: nat)
    requires IsRun(run) && n < |run|
    ensures Inv(run[n])
  {
    if n > 0 {
      RunKeepsInvariant(run, n - 1);
      NextKeepsInvariant(run[n - 1], run[n - 1 + 1]);
    }
  }

  /** In every reachable state: exact tickets, at most one broadcast, and none before the target is reached. */
  lemma AtMostOneShutdown(run: seq<State>, n: nat)
    requires IsRun(run) && n < |run|
    ensures TicketsExact(run[n]) && run[n].broadcasts <= 1
    ensures run[n].broadcasts == 1 ==> run[n].flag && run[n].target.Some? && run[n].counter >= run[n].target.value
  {
    RunKeepsInvariant(run, n);
  }

  predicate Quiet(pc: Pc) {
    !pc.Ticketed? && !pc.Swapping? && !pc.Broadcasting?
  }

  /**
   * With nobody between a fetch-add and its consequences, the shutdown has happened iff some ticket
   * reached the target.
   */
  lemma QuiescentOutcome(run: seq<State>, n: nat)
    requires IsRun(run) && n < |run|
    requires forall p :: 0 <= p < |run[n].producers| ==> Quiet(run[n].producers[p].pc)
    ensures run[n].flag <==> run[n].broadcasts == 1
    ensures run[n].flag <==> run[n].target.Some? && exists t: nat :: Issued(run[n], t) && t >= run[n].target.value
  {
    var s := run[n];
    RunKeepsInvariant(run, n);
    if s.target.Some? && exists t: nat :: Issued(s, t) && t >= s.target.value {
      var t: nat :| Issued(s, t) && t >= s.target.value;
      var p: nat :| Holds(s, p, t);
      assert ProducerOk(s, p);
      var i :| 0 <= i < |s.producers[p].issued| && s.producers[p].issued[i] == t;
    }
    if s.flag {
      assert Issued(s, s.counter);
    }
  }

  // ----- after the broadcast -----

  /** How many tickets a producer may still take once shutdown has been broadcast. */
  function Pending(p: Producer): nat {
    match p.pc
    case Committed => p.maxBatch
    case InBatch(left) => left
    case Adding(left) => left + 1
    case Ticketed(_, left) => left
    case Swapping(_, left) => left
    case Broadcasting(_, left) => left
    case _ => 0
  }

  /** How many steps a producer may still take once shutdown has been broadcast. */
  function Rank(p: Producer): nat {
    match p.pc
    case AtSelect => 1
    case Parked => 1
    case Committed => 3 + 5 * p.maxBatch
    case InBatch(left) => 2 + 5 * left
    case Adding(left) => 6 + 5 * left
    case Ticketed(_, left) => 5 + 5 * left
    case Swapping(_, left) => 4 + 5 * left
    case Broadcasting(_, left) => 3 + 5 * left
    case Stopped => 0
    case Exited => 0
  }

  function Total(producers: seq<Producer>, f: Producer -> nat): nat {
    if producers == [] then 0 else f(producers[0]) + Total(producers[1..], f)
  }

  lemma {:induction false} TotalUpdate(producers: seq<Producer>, f: Producer -> nat, p: nat, x: Producer)
    requires p < |producers|
    ensures Total(producers[p := x], f) + f(producers[p]) == Total(producers, f) + f(x)
  {
    if p == 0 {
      assert producers[p := x][1..] == producers[1..];
    } else {
      TotalUpdate(producers[1..], f, p - 1, x);
      assert producers[p := x][1..] == producers[1..][p - 1 := x];
    }
  }

  lemma MoveAfterBroadcast(s: State, p: nat, m: Move)
    requires Enabled(s, p, m) && s.broadcasts > 0
    ensures var s' := Do(s, p, m);
            && s'.broadcasts > 0 && |s'.producers| == |s.producers|
            && s'.counter + Total(s'.producers, Pending) <= s.counter + Total(s.producers, Pending)
            && Total(s'.producers, Rank) < Total(s.producers, Rank)
  {
    var s' := Do(s, p, m);
    var x := s'.producers[p];
    assert s'.producers == s.producers[p := x];
    TotalUpdate(s.producers, Pending, p, x);
    TotalUpdate(s.producers, Rank, p, x);
  }

  /**
   * After a broadcast the counter grows by no more than the producers' pending tickets, and the
   * whole system takes no more steps than their ranks add up to.
   */
  lemma {:induction false} BoundedAfterBroadcast(run: seq<State>, n: nat)
    requires Steps(run) && run[0].broadcasts > 0 && n < |run|
    ensures run[n].broadcasts > 0
    ensures run[n].counter + Total(run[n].producers, Pending) <= run[0].counter + Total(run[0].producers, Pending)
    ensures n + Total(run[n].producers, Rank) <= Total(run[0].producers, Rank)
  {
    if n > 0 {
      BoundedAfterBroadcast(run, n - 1);
      assert Next(run[n - 1], run[n]);
      var p, m :| Enabled(run[n - 1], p, m) && run[n] == Do(run[n - 1], p, m);
      MoveAfterBroadcast(run[n - 1], p, m);
    }
  }

  /** After a broadcast, a producer that can take no step has stopped. */
  lemma StuckOnlyWhenStopped(run: seq<State>, n: nat, p: nat)
    requires IsRun(run) && n < |run| && run[n].broadcasts > 0 && p < |run[n].producers|
    requires forall m :: !Enabled(run[n], p, m)
    ensures run[n].producers[p].pc.Stopped? || run[n].producers[p].pc.Exited?
  {
    var s := run[n];
    RunKeepsInvariant(run, n);
    assert ProducerOk(s, p);
    assert !Enabled(s, p, SeeShutdown) && !Enabled(s, p, StreamPending) && !Enabled(s, p, FetchAdd);
    assert !Enabled(s, p, CheckTarget) && !Enabled(s, p, SwapFlag) && !Enabled(s, p, Broadcast);
    assert !Enabled(s, p, FinishItem) && !Enabled(s, p, SkipTransaction);
  }

  function BatchSize(p: Producer): nat {
    p.maxBatch
  }

  /** What is left of the stream item the producer is broadcasting from. */
  function LeftInItem(p: Producer): nat {
    if p.pc.Broadcasting? then p.pc.left else 0
  }

  function AllBut(producers: seq<Producer>, b: nat): seq<Producer>
    requires b < |producers|
  {
    producers[..b] + producers[b + 1..]
  }

  lemma {:induction false} TotalAllBut(producers: seq<Producer>, f: Producer -> nat, b: nat)
    requires b < |producers|
    ensures Total(producers, f) == f(producers[b]) + Total(AllBut(producers, b), f)
  {
    if b == 0 {
      assert AllBut(producers, b) == producers[1..];
    } else {
      TotalAllBut(producers[1..], f, b - 1);
      assert AllBut(producers, b)[1..] == AllBut(producers[1..], b - 1);
    }
  }

  lemma {:induction false} TotalBelow(producers: seq<Producer>, f: Producer -> nat, g: Producer -> nat)
    requires forall i :: 0 <= i < |producers| ==> f(producers[i]) <= g(producers[i])
    ensures Total(producers, f) <= Total(producers, g)
  {
    if producers != [] {
      TotalBelow(producers[1..], f, g);
    }
  }

  /** A producer never has more tickets ahead of it than one item holds transactions. */
  lemma PendingWithinItem(run: seq<State>, n: nat, p: nat)
    requires IsRun(run) && n < |run| && p < |run[n].producers|
    ensures Pending(run[n].producers[p]) <= BatchSize(run[n].producers[p])
  {
    RunKeepsInvariant(run, n);
    assert ProducerOk(run[n], p);
  }

  lemma OthersPendingBounded(run: seq<State>, k: nat, b: nat)
    requires IsRun(run) && k < |run| && b < |run[k].producers|
    ensures Total(AllBut(run[k].producers, b), Pending) <= Total(AllBut(run[k].producers, b), BatchSize)
  {
    var others := AllBut(run[k].producers, b);
    forall i | 0 <= i < |others| ensures Pending(others[i]) <= BatchSize(others[i]) {
      PendingWithinItem(run, k, if i < b then i else i + 1);
    }
    TotalBelow(others, Pending, BatchSize);
  }

  lemma BroadcastPending(s: State, b: nat)
    requires Enabled(s, b, Broadcast)
    ensures Total(Do(s, b, Broadcast).producers, Pending) == Total(s.producers, Pending)
    ensures Pending(s.producers[b]) == LeftInItem(s.producers[b])
    ensures Do(s, b, Broadcast).broadcasts > 0 && Do(s, b, Broadcast).counter == s.counter
  {
    var x := Do(s, b, Broadcast).producers[b];
    TotalUpdate(s.producers, Pending, b, x);
  }

  /**
   * Once `b` has broadcast, however the run goes on: all producers together take at most what is left
   * of `b`'s item and one item each of the others.
   */
  lemma BatchOvershootBounded(run: seq<State>, k: nat, b: nat, rest: seq<State>, n: nat)
    requires IsRun(run) && k < |run| && Enabled(run[k], b, Broadcast)
    requires Steps(rest) && rest[0] == Do(run[k], b, Broadcast) && n < |rest|
    ensures rest[n].counter <= run[k].counter + LeftInItem(run[k].producers[b])
            + Total(AllBut(run[k].producers, b), BatchSize)
  {
    BroadcastPending(run[k], b);
    TotalAllBut(run[k].producers, Pending, b);
    OthersPendingBounded(run, k, b);
    BoundedAfterBroadcast(rest, n);
  }

  /** Only a producer whose select drops an ended stream ever waits for shutdown alone, and it then does. */
  ghost predicate ParksRightly(s: State) {
    forall p :: 0 <= p < |s.producers| ==> (s.producers[p].pc.Parked? ==> s.producers[p].parks)
  }

  lemma MoveParksRightly(s: State, q: nat, m: Move)
    requires Enabled(s, q, m) && ParksRightly(s)
    ensures ParksRightly(Do(s, q, m))
  {
    forall p | 0 <= p < |s.producers| && p != q ensures Do(s, q, m).producers[p] == s.producers[p] {
      OthersUnmoved(s, q, m, p);
    }
  }

  lemma NextParksRightly(s: State, s': State)
    requires Next(s, s') && ParksRightly(s)
    ensures ParksRightly(s')
  {
    var q: nat, m :| Enabled(s, q, m) && s' == Do(s, q, m);
    MoveParksRightly(s, q, m);
  }

  lemma {:induction false} ParkedExactly(run: seq<State>, n: nat)
    requires IsRun(run) && n < |run|
    ensures ParksRightly(run[n])
    ensures forall p: nat :: Enabled(run[n], p, StreamEnded) ==>
              (Do(run[n], p, StreamEnded).producers[p].pc.Parked? <==> run[n].producers[p].parks)
  {
    if n > 0 {
      ParkedExactly(run, n - 1);
      NextParksRightly(run[n - 1], run[n - 1 + 1]);
    }
  }

  ghost predicate AllSingle(s: State) {
    forall p :: 0 <= p < |s.producers| ==> s.producers[p].maxBatch == 1
  }

  lemma {:induction false} TotalOfOnes(producers: seq<Producer>)
    requires forall i :: 0 <= i < |producers| ==> producers[i].maxBatch == 1
    ensures Total(producers, BatchSize) == |producers|
  {
    if producers != [] {
      TotalOfOnes(producers[1..]);
    }
  }

  /**
   * Producers whose stream items hold one transaction each: once one of them has broadcast, all of
   * them together take at most one ticket each, the broadcaster none, however the run goes on.
   */
  lemma OvershootBounded(run: seq<State>, k: nat, b: nat, rest: seq<State>, n: nat)
    requires IsRun(run) && k < |run| && AllSingle(run[k]) && Enabled(run[k], b, Broadcast)
    requires Steps(rest) && rest[0] == Do(run[k], b, Broadcast) && n < |rest|
    ensures rest[n].counter <= run[k].counter + |run[k].producers| - 1
  {
    BatchOvershootBounded(run, k, b, rest, n);
    RunKeepsInvariant(run, k);
    assert ProducerOk(run[k], b);
    TotalOfOnes(AllBut(run[k].producers, b));
  }

  lemma OwnMoveAfterBroadcast(s: State, q: nat, m: Move, p: nat)
    requires Enabled(s, q, m) && s.broadcasts > 0 && p < |s.producers|
    ensures var s' := Do(s, q, m);
            && |s'.producers| == |s.producers| && s'.broadcasts > 0
            && |s'.producers[p].issued| + Pending(s'.producers[p]) <= |s.producers[p].issued| + Pending(s.producers[p])
  {
  }

  /** One producer, items of any size: after the broadcast it takes at most what is left of one item. */
  lemma {:induction false} OwnOvershootBounded(run: seq<State>, p: nat, n: nat)
    requires Steps(run) && run[0].broadcasts > 0 && n < |run| && p < |run[0].producers|
    ensures |run[n].producers| == |run[0].producers| && run[n].broadcasts > 0
    ensures |run[n].producers[p].issued| + Pending(run[n].producers[p])
         <= |run[0].producers[p].issued| + Pending(run[0].producers[p])
  {
    if n > 0 {
      OwnOvershootBounded(run, p, n - 1);
      assert Next(run[n - 1], run[n]);
      var q, m :| Enabled(run[n - 1], q, m) && run[n] == Do(run[n - 1], q, m);
      OwnMoveAfterBroadcast(run[n - 1], q, m, p);
    }
  }

  // ----- tickets and signatures -----

  function AboutToCount(p: Producer): seq<string> {
    if p.pc.Adding? then LastSignature(p.history) else []
  }

  function CountedFor(signatures: seq<string>, signature: string): nat {
    multiset(signatures)[signature]
  }

  /** The signatures due a ticket each: of sightings that are new minima and could be put in an envelope. */
  function DueTickets(history: seq<Sighting>, enveloped: seq<bool>): seq<string>
    requires |history| == |enveloped|
  {
    if history == [] then []
    else
      var n := |history| - 1;
      DueTickets(history[..n], enveloped[..n])
      + if NewMinimum(history, n) && enveloped[n] then [history[n].signature] else []
  }

  lemma DueStep(history: seq<Sighting>, enveloped: seq<bool>, x: Sighting, e: bool)
    requires |history| == |enveloped|
    ensures DueTickets(history + [x], enveloped + [e]) ==
            DueTickets(history, enveloped) + if NewMinimum(history + [x], |history|) && e then [x.signature] else []
  {
    assert (history + [x])[..|history|] == history && (enveloped + [e])[..|history|] == enveloped;
  }

  /** No signature is due more often than `record` answers `true` for it. */
  lemma {:induction false} DueBounded(history: seq<Sighting>, enveloped: seq<bool>, signature: string)
    requires |history| == |enveloped|
    ensures CountedFor(DueTickets(history, enveloped), signature) <= AnswersFor(history, signature)
    ensures |DueTickets(history, enveloped)| <= UpdateCount(history)
  {
    if history != [] {
      var n := |history| - 1;
      DueBounded(history[..n], enveloped[..n], signature);
    }
  }

  /** `Record` adds its sighting to the history; no other move touches it. */
  lemma HistoryIsRecorded(s: State, p: nat, m: Move)
    requires Enabled(s, p, m)
    ensures var me, me' := s.producers[p], Do(s, p, m).producers[p];
            if m.Record? then me'.history == me.history + [m.sighting] && me'.enveloped == me.enveloped + [m.enveloped]
            else me'.history == me.history && me'.enveloped == me.enveloped
  {
  }

  /** With a target, a ticket has been or is about to be taken for exactly the sightings that are due one, in order. */
  ghost predicate TicketsEarned(p: Producer, target: Option<nat>) {
    && |p.counted| == |p.issued| && |p.enveloped| == |p.history| && (p.pc.Adding? ==> p.history != [])
    && p.counted + AboutToCount(p) == if target.Some? then DueTickets(p.history, p.enveloped) else []
  }

  lemma RecordEarns(p: Producer, target: Option<nat>, x: Sighting, e: bool, p': Producer)
    requires TicketsEarned(p, target) && p.pc.InBatch?
    requires p' == p.(history := p.history + [x], enveloped := p.enveloped + [e], pc := p'.pc)
    requires if NewMinimum(p'.history, |p.history|) && e && target.Some? then p'.pc.Adding? else p'.pc.InBatch?
    ensures TicketsEarned(p', target)
  {
    DueStep(p.history, p.enveloped, x, e);
    assert p.counted + AboutToCount(p) == p.counted;
  }

  lemma MoveEarns(s: State, p: nat, m: Move)
    requires Enabled(s, p, m) && TicketsEarned(s.producers[p], s.target)
    ensures TicketsEarned(Do(s, p, m).producers[p], s.target)
  {
    var me, me' := s.producers[p], Do(s, p, m).producers[p];
    if m.Record? {
      RecordEarns(me, s.target, m.sighting, m.enveloped, me');
    } else {
      assert me'.counted + AboutToCount(me') == me.counted + AboutToCount(me);
    }
  }

  ghost predicate AllEarned(s: State) {
    forall p :: 0 <= p < |s.producers| ==> TicketsEarned(s.producers[p], s.target)
  }

  lemma MoveKeepsEarned(s: State, q: nat, m: Move)
    requires Enabled(s, q, m) && AllEarned(s)
    ensures AllEarned(Do(s, q, m))
  {
    var s' := Do(s, q, m);
    MoveEarns(s, q, m);
    forall p | 0 <= p < |s'.producers| ensures TicketsEarned(s'.producers[p], s'.target) {
      if p != q {
        OthersUnmoved(s, q, m, p);
      }
    }
  }

  lemma UntouchedEarns(p: Producer, target: Option<nat>)
    requires Untouched(p)
    ensures TicketsEarned(p, target)
  {
  }

  lemma InitialEarns(s: State)
    requires Initial(s)
    ensures AllEarned(s)
  {
    forall p | 0 <= p < |s.producers| ensures TicketsEarned(s.producers[p], s.target) {
      UntouchedEarns(s.producers[p], s.target);
    }
  }

  lemma NextKeepsEarned(s: State, s': State)
    requires Next(s, s') && AllEarned(s)
    ensures AllEarned(s')
  {
    var q: nat, m :| Enabled(s, q, m) && s' == Do(s, q, m);
    MoveKeepsEarned(s, q, m);
  }

  lemma {:induction false} RunEarns(run: seq<State>, n: nat)
    requires IsRun(run) && n < |run|
    ensures AllEarned(run[n])
  {
    if n > 0 {
      RunEarns(run, n - 1);
      NextKeepsEarned(run[n - 1], run[n - 1 + 1]);
    } else {
      InitialEarns(run[0]);
    }
  }

  /**
   * In every reachable state with a target, a producer has taken tickets, but for one it may be about to
   * take, for exactly its sightings that are new minima and could be put in an envelope, in their order;
   * without a target it has taken none.
   */
  lemma TicketsExactly(run: seq<State>, n: nat, p: nat)
    requires IsRun(run) && n < |run| && p < |run[n].producers|
    ensures var me := run[n].producers[p];
            && |me.enveloped| == |me.history| && |me.counted| == |me.issued|
            && me.counted + AboutToCount(me) ==
               if run[n].target.Some? then DueTickets(me.history, me.enveloped) else []
  {
    RunEarns(run, n);
    assert TicketsEarned(run[n].producers[p], run[n].target);
  }

  /**
   * In every reachable state a producer has taken no more tickets for a signature than `record` answered
   * `true` for it: while its elapsed times never decrease, at most one for each signature it has seen.
   */
  lemma OneTicketPerSignature(run: seq<State>, n: nat, p: nat, signature: string)
    requires IsRun(run) && n < |run| && p < |run[n].producers|
    ensures var me := run[n].producers[p];
            && |me.counted| == |me.issued|
            && CountedFor(me.counted, signature) <= AnswersFor(me.history, signature)
            && (ElapsedNeverDecreases(me.history) ==>
                  CountedFor(me.counted, signature) <= (if Seen(me.history, signature) then 1 else 0)
                  && |me.issued| <= |Signatures(me.history)|)
  {
    var me := run[n].producers[p];
    RunEarns(run, n);
    assert TicketsEarned(me, run[n].target);
    CountedOncePerSignature(me.history);
    DueBounded(me.history, me.enveloped, signature);
    assert CountedFor(me.counted, signature) <= CountedFor(me.counted + AboutToCount(me), signature);
    if ElapsedNeverDecreases(me.history) {
      MonotoneAnsweredOnce(me.history, signature);
    }
  }

  function TicketCount(p: Producer): nat {
    |p.issued|
  }

  function SignatureCount(p: Producer): nat {
    |Signatures(p.history)|
  }

  lemma MoveKeepsTotal(s: State, p: nat, m: Move)
    requires Enabled(s, p, m) && s.counter == Total(s.producers, TicketCount)
    ensures Do(s, p, m).counter == Total(Do(s, p, m).producers, TicketCount)
  {
    var x := Do(s, p, m).producers[p];
    assert Do(s, p, m).producers == s.producers[p := x];
    TotalUpdate(s.producers, TicketCount, p, x);
  }

  lemma NextKeepsTotal(s: State, s': State)
    requires Next(s, s') && s.counter == Total(s.producers, TicketCount)
    ensures s'.counter == Total(s'.producers, TicketCount)
  {
    var p: nat, m :| Enabled(s, p, m) && s' == Do(s, p, m);
    MoveKeepsTotal(s, p, m);
  }

  lemma {:induction false} CounterIsTotal(run: seq<State>, n: nat)
    requires IsRun(run) && n < |run|
    ensures run[n].counter == Total(run[n].producers, TicketCount)
  {
    if n > 0 {
      CounterIsTotal(run, n - 1);
      NextKeepsTotal(run[n - 1], run[n - 1 + 1]);
    } else {
      NoTickets(run[0].producers);
    }
  }

  lemma {:induction false} NoTickets(producers: seq<Producer>)
    requires forall i :: 0 <= i < |producers| ==> Untouched(producers[i])
    ensures Total(producers, TicketCount) == 0
  {
    if producers != [] {
      NoTickets(producers[1..]);
    }
  }

  /** With monotone clocks the shared counter never passes the distinct signatures, summed over the producers. */
  lemma CounterWithinSignatures(run: seq<State>, n: nat)
    requires IsRun(run) && n < |run|
    requires forall p :: 0 <= p < |run[n].producers| ==> ElapsedNeverDecreases(run[n].producers[p].history)
    ensures run[n].counter <= Total(run[n].producers, SignatureCount)
  {
    var producers := run[n].producers;
    CounterIsTotal(run, n);
    forall p | 0 <= p < |producers| ensures TicketCount(producers[p]) <= SignatureCount(producers[p]) {
      OneTicketPerSignature(run, n, p, "");
    }
    TotalBelow(producers, TicketCount, SignatureCount);
  }

  function DueCount(p: Producer): nat {
    if |p.enveloped| == |p.history| then |DueTickets(p.history, p.enveloped)| else 0
  }

  lemma {:induction false} TotalSame(producers: seq<Producer>, f: Producer -> nat, g: Producer -> nat)
    requires forall i :: 0 <= i < |producers| ==> f(producers[i]) == g(producers[i])
    ensures Total(producers, f) == Total(producers, g)
  {
    if producers != [] {
      TotalSame(producers[1..], f, g);
    }
  }

  /** With a target and nobody about to take a ticket, the counter is the number of tickets due, over all producers. */
  lemma CounterExactly(run: seq<State>, n: nat)
    requires IsRun(run) && n < |run| && run[n].target.Some?
    requires forall p :: 0 <= p < |run[n].producers| ==> !run[n].producers[p].pc.Adding?
    ensures run[n].counter == Total(run[n].producers, DueCount)
  {
    var producers := run[n].producers;
    CounterIsTotal(run, n);
    forall p | 0 <= p < |producers| ensures TicketCount(producers[p]) == DueCount(producers[p]) {
      TicketsExactly(run, n, p);
      assert producers[p].counted + [] == producers[p].counted;
    }
    TotalSame(producers, TicketCount, DueCount);
  }

  /**
   * With every producer between its atomic operations, the flag is set, and the one broadcast done, exactly
   * when there is a target and the tickets due are at least one and reach it.
   */
  lemma ShutdownExactly(run: seq<State>, n: nat)
    requires IsRun(run) && n < |run|
    requires forall p :: 0 <= p < |run[n].producers| ==>
               Quiet(run[n].producers[p].pc) && !run[n].producers[p].pc.Adding?
    ensures run[n].flag <==> run[n].broadcasts == 1
    ensures run[n].flag <==>
            && run[n].target.Some?
            && Total(run[n].producers, DueCount) >= 1 && Total(run[n].producers, DueCount) >= run[n].target.value
  {
    var s := run[n];
    QuiescentOutcome(run, n);
    RunKeepsInvariant(run, n);
    if s.target.Some? {
      CounterExactly(run, n);
      if s.counter >= 1 && s.counter >= s.target.value {
        assert Issued(s, s.counter);
      }
    }
  }

  // ----- a run that shuts down -----

  lemma ExtendRun(run: seq<State>, p: nat, m: Move) returns (longer: seq<State>)
    requires IsRun(run) && Enabled(run[|run| - 1], p, m)
    ensures longer == run + [Do(run[|run| - 1], p, m)] && IsRun(longer)
  {
    var last := run[|run| - 1];
    longer := run + [Do(last, p, m)];
    assert Next(last, Do(last, p, m));
    forall i | 0 <= i < |longer| - 1 ensures Next(longer[i], longer[i + 1]) {
      if i < |run| - 1 {
        assert Next(run[i], run[i + 1]);
      }
    }
  }

  /** One producer, about to take the ticket for its first sighting. */
  lemma FirstSighting(x: Sighting) returns (run: seq<State>)
    ensures IsRun(run)
    ensures var me := Producer(1, false, Adding(0), [x], [true], [], []);
            run[|run| - 1] == State(Some(1), 0, false, 0, None, [me])
  {
    var me := Producer(1, false, AtSelect, [], [], [], []);
    run := [State(Some(1), 0, false, 0, None, [me])];
    run := ExtendRun(run, 0, PollShutdown);
    run := ExtendRun(run, 0, TakeItem(1));
    run := ExtendRun(run, 0, Record(x, true));
    var none: seq<Sighting> := [];
    assert none + [x] == [x] && NewMinimum(none + [x], 0);
    var producers := run[|run| - 1].producers;
    assert producers == [producers[0]] && producers[0].history == [x] && producers[0].enveloped == [true];
  }

  /** With a target of one, a producer's first sighting leads to the broadcast, and the broadcast stops it. */
  lemma ShutdownHappens(x: Sighting) returns (run: seq<State>)
    ensures IsRun(run)
    ensures var s := run[|run| - 1];
            && s.counter == 1 && s.flag && s.broadcasts == 1
            && |s.producers| == 1 && s.producers[0].counted == [x.signature] && s.producers[0].pc.Stopped?
  {
    run := FirstSighting(x);
    run := ExtendRun(run, 0, FetchAdd);
    run := ExtendRun(run, 0, CheckTarget);
    run := ExtendRun(run, 0, SwapFlag);
    run := ExtendRun(run, 0, Broadcast);
    run := ExtendRun(run, 0, FinishItem);
    run := ExtendRun(run, 0, SeeShutdown);
  }
}
