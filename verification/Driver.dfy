/** The round driver over whole runs: what it starts, whom it waits for, and so what a summary can count. */
module Driver {
  import opened Wrappers
  import opened Ledger
  import opened LedgerLog
  import opened Summary
  import opened Accounting
  import opened WakeUp
  import opened OrderStatistics
  import NonceRounds

  /** The sender still waiting belongs to the present round. */
  predicate InPresentRound(s: System, sender: Sender) {
    sender.outcome == None ==> 0 < s.started <= |s.ids| && sender.round == s.ids[s.started - 1]
  }

  /** Each started round has a task for each endpoint, and each task registers at most one send. */
  ghost predicate TasksOk(s: System) {
    && (s.todo != {} ==> s.started > 0)
    && SendCount(s.log) + |s.todo| <= Times(s.started, |s.endpoints|)
  }

  ghost predicate RoundsOk(s: System) {
    && s.started <= |s.ids| && NonceRounds.NeighboursDiffer(s.ids)
    && StartedIds(s.log) == s.ids[..s.started]
    && RoundsStartedFirst(s.log)
  }

  ghost predicate DriverOk(s: System) {
    && RoundsOk(s) && TasksOk(s)
    && forall i :: 0 <= i < |s.senders| ==> InPresentRound(s, s.senders[i])
  }

  lemma StartedFirstStep(log: seq<Event>, e: Event)
    requires RoundsStartedFirst(log) && (e.Registered? ==> e.record.round in StartedRounds(log))
    ensures RoundsStartedFirst(log + [e])
  {
    var all := log + [e];
    forall i | 0 <= i < |all| && all[i].Registered? ensures all[i].record.round in StartedRounds(all[..i]) {
      assert all[..i] == log[..i];
      assert i == |log| ==> log[..i] == log;
    }
  }

  lemma CallCounts(log: seq<Event>, e: Event)
    ensures StartedIds(log + [e]) == StartedIds(log) + if e.Started? then [e.startedRound] else []
    ensures SendCount(log + [e]) == SendCount(log) + if e.Registered? then 1 else 0
  {
    assert (log + [e])[..|log|] == log;
  }

  lemma BeginKeepsRounds(s: System, s': System)
    requires RoundsOk(s) && s.started < |s.ids|
    requires s'.log == s.log + [Started(s.ids[s.started])] && s'.ids == s.ids && s'.started == s.started + 1
    ensures RoundsOk(s')
  {
    CallCounts(s.log, Started(s.ids[s.started]));
    StartedFirstStep(s.log, Started(s.ids[s.started]));
    assert s.ids[..s.started + 1] == s.ids[..s.started] + [s.ids[s.started]];
  }

  lemma BeginKeepsTasks(s: System, s': System)
    requires TasksOk(s) && s.todo == {} && s.started < |s.ids|
    requires s'.log == s.log + [Started(s.ids[s.started])] && s'.endpoints == s.endpoints && s'.started == s.started + 1
    requires |s'.todo| == |s.endpoints|
    ensures TasksOk(s')
  {
    CallCounts(s.log, Started(s.ids[s.started]));
  }

  lemma BeginKeepsDriver(s: System)
    requires DriverOk(s) && Enabled(s, BeginRound)
    ensures DriverOk(Do(s, BeginRound))
  {
    BeginKeepsRounds(s, Do(s, BeginRound));
    BeginKeepsTasks(s, Do(s, BeginRound));
  }

  lemma PresentRoundStarted(s: System)
    requires RoundsOk(s) && s.started > 0
    ensures s.ids[s.started - 1] in StartedRounds(s.log)
  {
    assert s.ids[s.started - 1] == StartedIds(s.log)[s.started - 1];
  }

  /** `s'` differs from `s` only in the fields a step of a task, sender or observer may change. */
  predicate SamePlan(s: System, s': System) {
    s'.endpoints == s.endpoints && s'.ids == s.ids && s'.started == s.started
  }

  lemma RegistrationKeepsDriver(s: System, s': System, endpoint: nat, signature: string, record: SendRecord,
                                sender: Sender)
    requires DriverOk(s) && endpoint in s.todo && s.started > 0 && SamePlan(s, s')
    requires record.round == sender.round == s.ids[s.started - 1]
    requires s'.log == s.log + [Registered(signature, record)]
    requires s'.todo == s.todo - {endpoint} && s'.senders == s.senders + [sender]
    ensures DriverOk(s')
  {
    CallCounts(s.log, Registered(signature, record));
    PresentRoundStarted(s);
    StartedFirstStep(s.log, Registered(signature, record));
  }

  lemma SendKeepsDriver(s: System, endpoint: nat, sentElapsed: nat)
    requires DriverOk(s) && Enabled(s, Send(endpoint, sentElapsed))
    ensures DriverOk(Do(s, Send(endpoint, sentElapsed)))
  {
    var signature := s.signatureOf(s.drawn[endpoint]);
    var record := SendRecord(s.endpoints[endpoint], sentElapsed, s.ids[s.started - 1]);
    var sender := NewSender(|s.log|, s.book, signature, record);
    RegistrationKeepsDriver(s, Do(s, Send(endpoint, sentElapsed)), endpoint, signature, record, sender);
  }

  lemma ObserveKeepsDriver(s: System, s': System, obs: Observation)
    requires DriverOk(s) && s'.log == s.log + [Observed(obs)] && s' == s.(log := s'.log, book := s'.book)
    ensures DriverOk(s')
  {
    CallCounts(s.log, Observed(obs));
    StartedFirstStep(s.log, Observed(obs));
  }

  lemma QuietKeepsDriver(s: System, step: Step)
    requires DriverOk(s) && Enabled(s, step) && (step.Draw? || step.GiveUp? || step.Wake?)
    ensures DriverOk(Do(s, step))
  {
  }

  lemma StepKeepsDriver(s: System, step: Step)
    requires DriverOk(s) && Enabled(s, step)
    ensures DriverOk(Do(s, step))
  {
    match step {
      case BeginRound => BeginKeepsDriver(s);
      case Send(endpoint, sentElapsed) => SendKeepsDriver(s, endpoint, sentElapsed);
      case Observe(obs) => ObserveKeepsDriver(s, Do(s, step), obs);
      case _ => QuietKeepsDriver(s, step);
    }
  }

  lemma NextKeepsDriver(s: System, s': System)
    requires DriverOk(s) && Next(s, s')
    ensures DriverOk(s')
  {
    var step :| Enabled(s, step) && s' == Do(s, step);
    StepKeepsDriver(s, step);
  }

  lemma {:induction false} RunKeepsDriver(run: seq<System>, n: nat)
    requires IsRun(run) && n < |run|
    ensures DriverOk(run[n])
  {
    if n > 0 {
      RunKeepsDriver(run, n - 1);
      NextKeepsDriver(run[n - 1], run[n - 1 + 1]);
    }
  }

  /**
   * In every reachable state of the driver, senders and observer: the rounds started are the first ids
   * in order, every send names a round started before it, and every credited round was started.
   */
  lemma RoundsRunInOrder(run: seq<System>, n: nat)
    requires IsRun(run) && n < |run|
    ensures StartedIds(run[n].log) <= run[n].ids && NonceRounds.NeighboursDiffer(StartedIds(run[n].log))
    ensures RoundsStartedFirst(run[n].log)
    ensures RoundsOf(CreditsIn(run[n].log)) <= StartedRounds(run[n].log)
  {
    RunKeepsDriver(run, n);
    CreditedRoundsStarted(run[n].log);
  }

  /** No sender waits across the start of a round: whoever waits was registered in the present round. */
  lemma OnlyPresentRoundWaits(run: seq<System>, n: nat, i: nat)
    requires IsRun(run) && n < |run| && i < |run[n].senders|
    ensures InPresentRound(run[n], run[n].senders[i])
  {
    RunKeepsDriver(run, n);
  }

  /**
   * Whenever the book is summarised in a run: landed rounds are at most the rounds attempted, which are
   * at most those planned, and at most the wins; the wins are at most one for each endpoint and round.
   */
  lemma SummaryWithinRounds(run: seq<System>, n: nat, r: LandingSummary)
    requires IsRun(run) && n < |run| && Summarises(r, run[n].book)
    ensures r.totalLanded <= r.rounds == run[n].started <= |run[n].ids|
    ensures r.totalLanded <= SumWins(r.providers) <= r.rounds * |run[n].endpoints|
  {
    var log := run[n].log;
    RunKeepsInvariant(run, n);
    RunKeepsDriver(run, n);
    LedgerRefinesLog(log);
    LandedRoundsBounded(log);
    SendsConserved(log);
    TimesIsProduct(run[n].started, |run[n].endpoints|);
    WinsOfListing(r.providers, run[n].book.metrics);
  }

  /** Tasks that give up one by one leave none to do, and nothing else changed. */
  lemma {:induction false} TasksCanStop(run: seq<System>) returns (longer: seq<System>)
    requires IsRun(run)
    ensures IsRun(longer) && run <= longer && longer[|longer| - 1].todo == {}
    ensures var s, s' := run[|run| - 1], longer[|longer| - 1];
            s'.log == s.log && s'.senders == s.senders && s'.started == s.started && s'.ids == s.ids
    decreases |run[|run| - 1].todo|
  {
    var s := run[|run| - 1];
    longer := run;
    if s.todo != {} {
      var e :| e in s.todo;
      longer := ExtendRun(run, GiveUp(e));
      longer := TasksCanStop(longer);
    }
  }

  function WaitingCount(senders: seq<Sender>): nat {
    if senders == [] then 0
    else WaitingCount(senders[..|senders| - 1]) + if senders[|senders| - 1].outcome.None? then 1 else 0
  }

  lemma {:induction false} FewerWaiting(senders: seq<Sender>, i: nat, o: Outcome)
    requires i < |senders| && senders[i].outcome.None?
    ensures WaitingCount(senders[i := senders[i].(outcome := Some(o))]) == WaitingCount(senders) - 1
  {
    var n := |senders| - 1;
    var after := senders[i := senders[i].(outcome := Some(o))];
    if i < n {
      FewerWaiting(senders[..n], i, o);
      assert after[..n] == senders[..n][i := senders[i].(outcome := Some(o))];
    } else {
      assert after[..n] == senders[..n];
    }
  }

  /** Senders that time out one by one leave none waiting. */
  lemma {:induction false} SendersCanStop(run: seq<System>) returns (longer: seq<System>)
    requires IsRun(run) && run[|run| - 1].todo == {}
    ensures IsRun(longer) && run <= longer && RoundOver(longer[|longer| - 1])
    ensures var s, s' := run[|run| - 1], longer[|longer| - 1];
            s'.log == s.log && s'.started == s.started && s'.ids == s.ids
    decreases WaitingCount(run[|run| - 1].senders)
  {
    var s := run[|run| - 1];
    longer := run;
    if i :| 0 <= i < |s.senders| && s.senders[i].outcome.None? {
      WakingIsExact(run, |run| - 1, i);
      FewerWaiting(s.senders, i, TimedOut);
      longer := ExtendRun(run, Wake(i, TimedOut));
      longer := SendersCanStop(longer);
    }
  }

  /**
   * No run is ever stuck in a round: whatever has happened, the tasks and senders of the round can all
   * come to an end without another call on the book, and if a round is left it can then begin.
   */
  lemma RoundCanEnd(run: seq<System>) returns (longer: seq<System>)
    requires IsRun(run)
    ensures IsRun(longer) && run <= longer
    ensures var s, s' := run[|run| - 1], longer[|longer| - 1];
            && s'.log == s.log && s'.started == s.started && RoundOver(s')
            && (s.started < |s.ids| ==> Enabled(s', BeginRound))
  {
    longer := TasksCanStop(run);
    longer := SendersCanStop(longer);
    RunKeepsInvariant(longer, |longer| - 1);
  }

  /** A run of one round in which two endpoints' sends both land. */
  lemma BothLandInRun(p: string, q: string, round: string, signatureOf: nat -> string) returns (run: seq<System>)
    ensures IsRun(run) && run[|run| - 1].signatureOf == signatureOf
    ensures run[|run| - 1].log == BothLand(round, p, q, signatureOf(0), signatureOf(1))
  {
    run := TwoSent(p, q, round, signatureOf);
    run := ObserveInRun(run, Observation(signatureOf(0), p + ['|'], 0));
    run := ObserveInRun(run, Observation(signatureOf(1), q + ['|'], 0));
  }

  lemma ObserveInRun(run: seq<System>, obs: Observation) returns (longer: seq<System>)
    requires IsRun(run)
    ensures IsRun(longer) && |longer| == |run| + 1
    ensures longer[|run|].log == run[|run| - 1].log + [Observed(obs)]
            && longer[|run|].signatureOf == run[|run| - 1].signatureOf
  {
    RunKeepsInvariant(run, |run| - 1);
    longer := ExtendRun(run, Observe(obs));
  }

  /**
   * The printed shares can pass 100%, even with signatures that never repeat: a run in which two
   * endpoints' sends land in one round, and the one summary of its book.
   */
  lemma SharesCanSumTo200(p: string, q: string, round: string, signatureOf: nat -> string)
    returns (run: seq<System>, r: LandingSummary)
    requires Injective(signatureOf) && '|' !in p && '|' !in q
    ensures IsRun(run) && run[|run| - 1].signatureOf == signatureOf && !OneWinPerRound(run[|run| - 1].log)
    ensures Summarises(r, run[|run| - 1].book)
    ensures r.totalLanded == 1 && SumShares(r.providers, r.totalLanded) == 200.0
  {
    run := BothLandInRun(p, q, round, signatureOf);
    var n, a, b := |run| - 1, signatureOf(0), signatureOf(1);
    RunKeepsInvariant(run, n);
    SignaturesNeverRepeat(run, n);
    BothLandCredits(round, p, q, a, b);
    RoundsDistinctByWins(run[n].log);
    r := SummaryExists(run[n].log);
    SharesOfTwo(run[n].log, r, Credit(a, p, round, 0.0), Credit(b, q, round, 0.0));
  }
}
