# LandingBench: verified model

LandingBench sends one durable-nonce transaction per endpoint and round, watches a single gRPC
stream for the tag each transaction carries, and credits the endpoint whose tag it sees first. An
older set of modules in the repository compares streaming providers instead: producers count
signatures towards a shared target, a comparator collects the sightings, and a websocket task
reports them to a backend.

The model covers the parts of both that keep state or depend on order:

- **Ledger, LedgerLog, LandingBook, Summary, Accounting**: the landing book. Each method of the book
  holds the mutex from its first access to its return, so it is one step. The book is a class updated
  in place; every method is tied to a function on the book's value, and the value is proved equal to
  what a scan of the log of calls finds, a scan that keeps no maps.
- **WakeUp, Driver**: senders, observer and round driver interleaved over the book, with one-shot and
  watch channels, timeouts and the unbiased select of a waiting sender; a round has one sending task for
  each endpoint, and starts when every task and sender of the one before is done.
- **NonceRounds**: polling for a fresh nonce hash, and the ids the driver's rounds run under.
- **AttributionTag**: building the instructions, compiling them, recovering the memo and the tag.
- **OrderStatistics, Text**: sorting, percentiles, the overall figures, the order of names.
- **RunComparison, ComputeRun, RunOrder**: the run comparison: what a summary has to be without any
  iteration order, the loops that compute it, and what in their result depends on the order.
- **Visiting, Wrappers**: orders in which a hash map may be visited; optional values and results.
- **Accumulator, SharedTarget**: a producer's earliest sightings, and the counter, flag and broadcast
  that stop all producers, each atomic operation a step of its own; a producer takes a ticket only for a
  sighting its accumulator answers `true` to.
- **BackendLoop, BackendFinish, Handshake**: the backend stream's select loop, its queue and status
  channel with `finish` waiting on them, and the start acknowledgement.

What the environment decides is a parameter or a nondeterministic step: hash map iteration orders,
which ready branch a select takes, what the network delivers, whether a write succeeds, clock
readings, timeouts. Durations are nanoseconds (polling: milliseconds), milliseconds and fractions are
exact reals, so all floats are taken as finite. Channels are numbers into a store of channel states.

Properties that turned out to need a condition, with that condition:

- A sender's own channel is ready without a credit of its send exactly when its signature is registered
  again before being credited (`WakeUp.ReadinessIsExact`); `WakeUp.RepeatedSignatureMisreports` is a run
  in which a sender then reports a landing. Every payload carries a number from a process-wide counter,
  so this takes two numbers that lead to one signature, that is a collision; without one no signature is
  ever registered twice (`WakeUp.SignaturesNeverRepeat`).
- The printed win shares sum to 100% exactly when no landed round was credited twice: with unique
  signatures, when no two sends of one round are both first observed with their own tag
  (`Accounting.WinSharesSumTo100`). `Driver.SharesCanSumTo200` is a run that prints 200%.
- A send whose own memo is observed is credited exactly when its provider's name contains no `|`
  (`AttributionTag.AttributedExactlyWithoutSeparator`).
- The order in which endpoints are visited changes the overall delays exactly when a counted signature is
  seen equally early by a configured endpoint and an unknown one (`RunOrder.OrderMattersExactly`);
  `RunOrder.MixedTieShows` runs the comparison on such a signature in two orders, and the figures differ.
- `record` answers `true` once for a signature exactly when no later sighting is earlier than the first
  (`Accumulator.AnsweredOnceExactly`), so always while elapsed times never decrease.
- `percentile` reads in bounds exactly below a threshold on its fraction, which 1 is always below
  (`OrderStatistics.PercentileIndexInRange`).

The repository's own README says latency runs to the first observation. The code discards an
observation that is processed before its send is registered, so it is the first one processed after
registration; the model follows the code.

`analysis.rs`, `backend.rs` and the providers other than Yellowstone's are not in the current module
tree. `Comparator`, `TransactionData` and `ProviderContext` have no definition in the repository: the
comparator is taken as a map from signature to endpoint to sighting, and a sighting as the three fields
the producers build.

## Model

| member | source | states |
|---|---|---|
| LandingBooks.LandingBook.RecordSend | src/main.rs:81-110 | The call appends one registration to the log the book replays, and hands back the signature's own fresh pending channel and the round's current channel with the version seen |
| LandingBooks.LandingBook.StartRound | src/main.rs:112-119 | One more round attempted, a notifier for it exists, and the book still replays its log |
| LandingBooks.LandingBook.RecordLanding | src/main.rs:121-167 | The call answers true exactly when the scan of the log credits this observation, and the book still replays its log |
| LandingBooks.LandingBook.Finalize | src/main.rs:169-187 | For every visiting order of the metrics, the result summarises the book: providers ascending by name, sorted latencies, overall figures of all latencies |
| LedgerLog.LedgerRefinesLog | src/main.rs:81-167 | After any calls in any order: pending sends, every provider's wins and latency list, landed rounds and rounds attempted are those of a direct scan |
| LedgerLog.CreditedExactlyOnFirstObservation | src/main.rs:121-150 | With unique signatures an observation earns a credit if and only if it is the first after registration and carries the provider's tag; a million times its milliseconds are the nanoseconds from send to observation, or zero if it was observed before |
| LedgerLog.CreditStep | src/main.rs:123-140 | The book credits an observation exactly when the scan does, with the same provider, round and latency |
| Summary.SummaryUnique | src/main.rs:169-186 | A book has only one summary, whatever order its metrics are visited in |
| Accounting.SummaryRefinesLog | src/main.rs:169-206 | The final summary is a function of the log: the mean of the credited latencies and their values of nearest rank at 0.50, 0.90, 0.95 and 0.99; wins and sorted latencies of exactly the registered providers |
| Accounting.TotalsAreCredits | src/main.rs:148-150 | Wins summed over providers are the number of credits, and the latencies of all providers together are those of the credits |
| Accounting.SendsConserved | src/main.rs:99-140 | Registered sends equal pending plus won plus mismatched plus overwritten; none is overwritten when signatures are unique |
| Accounting.WaitersAreSentOrMismatched | src/main.rs:108-156 | With unique signatures the waiters are those of the pending sends and of the mismatched ones, disjointly |
| Accounting.LandedRoundsBounded | src/main.rs:148-185 | For every log, landed rounds are at most the wins, and equal them if and only if no round was credited twice; they are at most the rounds attempted when rounds are started before their sends |
| Accounting.WinSharesSumTo100 | src/main.rs:780-786 | The printed shares sum to at least 100%, and to exactly 100% if and only if no landed round was credited twice; with unique signatures, if and only if no two sends of one round both win |
| Accounting.RoundsDistinctByWins | src/main.rs:121-153 | With unique signatures, no round is credited twice if and only if no two sends of one round are both first observed with their own tag |
| Accounting.SummaryExists | src/main.rs:169-187 | Every log's book has a summary |
| WakeUp.ReadinessIsExact | src/main.rs:91-109 | In every reachable state a sender's own channel is ready iff its send was credited or its signature registered again first, the second exactly when it is ready uncredited; its round channel iff the round was credited after it registered; and the round channel is never lost |
| WakeUp.FreshSignaturesReadExactly | src/main.rs:99-109 | When no signature was registered twice, an own channel is ready iff the signature was credited |
| WakeUp.OutcomesAreJustified | src/main.rs:531-549 | SelfLanded implies a credit of the send, or a repeated registration before one, and with unique signatures a credit; OtherLanded that the round was credited after registration; the dropped arm is never taken |
| WakeUp.WakingIsExact | src/main.rs:531-549 | In every reachable state a waiting sender can end as SelfLanded iff its send was credited or its signature registered again first, as OtherLanded iff its round was credited since it registered, never as dropped, always as timed out |
| WakeUp.CreditWakesItsRound | src/main.rs:154-159 | A credit makes ready the round channel of every sender of its round and changes nobody else's |
| WakeUp.RepeatedSignatureMisreports | src/main.rs:533-534 | When two numbers lead to one signature there is a run in which the first sender reports its own landing with no credit in the log |
| WakeUp.SignaturesNeverRepeat | src/main.rs:621-628 | When different numbers lead to different signatures, no run registers a signature twice |
| Driver.RoundsRunInOrder | src/main.rs:382-434 | In every run of driver, senders and observer: the rounds started are a prefix of the planned ids, neighbours differ, every send names a round started before it, and every credited round was started |
| Driver.OnlyPresentRoundWaits | src/main.rs:399-434 | In every reachable state a sender that still waits was registered under the present round's id |
| Driver.RoundCanEnd | src/main.rs:399-434 | From every reachable state all tasks and senders of the round can come to an end with no further call on the book, and a round that is left can then begin |
| Driver.SummaryWithinRounds | src/main.rs:382-434 | Whenever a run's book is summarised: landed rounds are at most the rounds, the rounds those planned, landed rounds at most the wins, and the wins at most rounds times endpoints |
| Driver.SharesCanSumTo200 | src/main.rs:780-786 | For any two names without separator and signatures that never repeat there is a run, with both sends of its round landing, and a summary of its book whose shares sum to 200% |
| NonceRounds.FetchFreshNonceHash | src/main.rs:630-662 | The last poll decides: it fails, sees a hash other than the previous one, or the old one once the wait and at least 100 ms are over; all earlier polls saw the old hash sooner; the number of polls is bounded |
| NonceRounds.DecisionUnique | src/main.rs:637-661 | One sequence of answers and clock readings is decided by one poll, with one outcome |
| NonceRounds.RunRounds | src/main.rs:382-398 | Each id encodes the hash that decided that round's polling, the first to differ from the previous round's; neighbouring ids differ; the loop ends early only on the stop signal or with the outcome of a failed polling |
| AttributionTag.BuildInstructions | src/main.rs:565-619 | Advance-nonce comes first, exactly one instruction belongs to the memo program and carries name, separator and random part; the fee pair when there is a fee; a tip last exactly for the custom and Soyas kinds with lamports above zero; errors exactly for a missing or unparsable tip wallet |
| AttributionTag.MicroFee | src/main.rs:578-582 | The fee in micro-lamports is the nearest integer, saturated at 64 bits |
| AttributionTag.ExtractMemo | src/providers/yellowstone.rs:199-235 | Returns the first memo instruction whose data is text, skipping bad program indices, and nothing iff there is none or the update is incomplete |
| AttributionTag.ExtractedIsPayload | src/providers/yellowstone.rs:220-232 | From a compiled transaction the scan returns the payload that was built into it, and no other text |
| AttributionTag.TagRoundTrip | src/main.rs:127-131 | The tag cut from the extracted memo is the provider's name if and only if the name has no separator |
| AttributionTag.AttributedExactlyWithoutSeparator | src/main.rs:121-167 | End to end: a send whose first observation carries its own memo is credited if and only if its provider's name has no separator |
| Text.BeforeInvertsJoin | src/main.rs:627-627 | Cutting a joined text at the first separator returns the head if and only if the head has no separator |
| Text.LessMeans | src/main.rs:178-178 | One name is before another iff at the first place where they part it has ended or has the smaller character |
| OrderStatistics.PercentileIndexInRange | src/utils.rs:17-23 | The index is in bounds if and only if the fraction is below a stated threshold, hence for every fraction up to 1 |
| OrderStatistics.PercentileIndexNearest | src/utils.rs:21-21 | The index is in bounds and the integer nearest to the exact position, the larger one on a half |
| OrderStatistics.PercentileRank | src/utils.rs:17-23 | The reported value is one of the data, at least index+1 of the unsorted data are at most it and at least n-index are at least it |
| OrderStatistics.PercentileMeans | src/utils.rs:17-23 | The reported value is the one datum whose rank is the index nearest to the fraction, counted by the data at most and at least it |
| OrderStatistics.RankUnique | src/utils.rs:22-22 | Data and rank leave one value only |
| OrderStatistics.PercentileMonotone | src/utils.rs:17-23 | A larger fraction gives an index and a value at least as large |
| OrderStatistics.OverallInOrder | src/main.rs:228-244 | The extremes are data and bound the data, the average lies between them, and the percentiles come in order between them |
| OrderStatistics.OverallFigures | src/main.rs:228-244 | The average times the number of data is their sum, and each percentile is the datum of nearest rank at its own fraction; without data there is no figure |
| OrderStatistics.OverallCanonical | src/main.rs:228-244 | The figures depend on the values only, not on the order they were collected in |
| ComputeRun.ComputeRunSummary | src/analysis.rs:58-135 | For all iteration orders the loops produce the summary specified without order, won in each signature by the endpoint visited first among the earliest |
| ComputeRun.AddSignature | src/analysis.rs:69-112 | One turn of the signature loop takes correct accumulators to correct accumulators: partial, historical, empty and counted signatures |
| ComputeRun.AddSightings | src/analysis.rs:99-111 | Every known endpoint of the signature gets one more observation and the milliseconds it is behind the first, the winner a detection and a zero; the overall delays grow by one for each of the others, by its own |
| ComputeRun.FirstEarliest | src/analysis.rs:90-94 | Finds the first visited of the endpoints with the least elapsed time, unless there is none |
| ComputeRun.PickFastest | src/analysis.rs:121-125 | The endpoint named has a median at most that of every other one with data, and the lesser name where medians are the same; one without a median is named only if none with data has one; none is named iff none has data |
| RunComparison.CompareLatencyIsStrictTotal | src/analysis.rs:296-306 | The comparison puts the lesser median first and then the lesser name, is antisymmetric and transitive, and ties only equal names with equal medians |
| RunComparison.OverallMeans | src/analysis.rs:137-149 | The overall figures of a bag of delays are its values of nearest rank at 0.50, 0.90, 0.95 and 0.99, and missing for an empty bag |
| RunComparison.EndpointMeans | src/analysis.rs:258-284 | An endpoint's figures are the values of nearest rank of its delays at 0.50, 0.95 and 0.99, and its share times the total is its first detections |
| RunComparison.CountsSpelledOut | src/analysis.rs:69-104 | Counted signatures are those seen by all producers with every sighting at or after its start, backfilled ones those with a sighting before its start; an endpoint's counts are those it saw |
| RunOrder.SummaryIndependent | src/analysis.rs:58-135 | Any two summaries of the same data agree on everything but first detections, shares and overall figures, whatever the orders and the choices among ties; on the overall figures too when no tie is mixed |
| RunOrder.NamedSummaryIndependent | src/analysis.rs:58-135 | With distinct names and sightings by named endpoints only, they agree on everything but first detections and shares |
| RunOrder.ChoiceMattersExactly | src/analysis.rs:90-109 | The choice among tied endpoints changes the overall delays if and only if a tie mixes configured and unknown endpoints |
| RunOrder.OrderMattersExactly | src/analysis.rs:90-109 | Two visiting orders give different overall delays if and only if a tie mixes configured and unknown endpoints |
| RunOrder.ChoicesAreVisited | src/analysis.rs:90-94 | Every choice among tied earliest endpoints is the one that some visiting orders make |
| RunOrder.SameKeyOrdersAgree | src/analysis.rs:58-135 | With the same visiting order within each signature two summaries agree on every figure, first detections and shares included |
| RunOrder.MixedTieShows | src/analysis.rs:58-135 | Computing the summary of one mixed tie in two visiting orders gives no overall figures in the one and some in the other |
| RunOrder.RunConserved | src/analysis.rs:58-117 | Every endpoint counts every signature, first detections sum to the signatures, shares to one, and there is one overall delay per signature and losing endpoint |
| RunOrder.CompleteMeansAll | src/analysis.rs:71-74 | With distinct names the length test means that every named endpoint saw the signature |
| Accumulator.TransactionAccumulator.Record | src/providers/common.rs:23-40 | The entries are the earliest least sightings of the history, and the answer is true exactly for a strict new minimum |
| Accumulator.TransactionAccumulator.Len | src/providers/common.rs:42-44 | The number of distinct signatures recorded |
| Accumulator.CountedOncePerSignature | src/providers/arpc.rs:135-145 | Updates number at least the distinct signatures, and exactly those while elapsed times never decrease |
| Accumulator.AnsweredOnceExactly | src/providers/common.rs:23-40 | For each signature, record answers true at least once iff it was seen, and exactly once iff also no later sighting is earlier than the first |
| SharedTarget.AtMostOneShutdown | src/providers/arpc.rs:144-153 | In every reachable state the tickets are exactly 1 to the counter, each handed out once; at most one broadcast has happened, and only after the counter reached the target |
| SharedTarget.QuiescentOutcome | src/providers/arpc.rs:144-153 | With no producer between its fetch-add and what follows, flag set, broadcast done and some ticket at the target are the same |
| SharedTarget.TicketsExactly | src/providers/arpc.rs:135-145 | In every reachable state with a target a producer has taken, but for one it may be about to take, exactly one ticket for each sighting that is a new minimum and could be put in an envelope, in order; without a target none |
| SharedTarget.CounterExactly | src/providers/arpc.rs:143-145 | With nobody about to take a ticket the counter is the number of those sightings over all producers |
| SharedTarget.ShutdownExactly | src/providers/arpc.rs:143-153 | With every producer between its atomic operations, flag and broadcast have happened iff there is a target and those sightings are at least one and reach it |
| SharedTarget.ShutdownHappens | src/providers/arpc.rs:102-153 | With a target of one there is a run in which a first sighting leads to the broadcast and the broadcast stops the producer |
| SharedTarget.OneTicketPerSignature | src/providers/arpc.rs:135-145 | In every reachable state a producer has taken no more tickets for a signature than record answered true for it; while its elapsed times never decrease, at most one for each signature seen |
| SharedTarget.CounterWithinSignatures | src/providers/arpc.rs:144-145 | With elapsed times that never decrease, the shared counter is at most the producers' distinct signatures added up |
| SharedTarget.BatchOvershootBounded | src/providers/shredstream.rs:82-151 | After the broadcast by one producer, all together take at most what is left of its item plus one item of each other producer, items of any size |
| SharedTarget.OvershootBounded | src/providers/arpc.rs:102-153 | After the broadcast, producers with one transaction per item together take at most one ticket each, the broadcaster none |
| SharedTarget.OwnOvershootBounded | src/providers/shredstream.rs:82-151 | After the broadcast a producer takes at most the tickets left in one item, whatever the items' sizes |
| SharedTarget.BoundedAfterBroadcast | src/providers/shredstream.rs:82-163 | After the broadcast the counter's growth and the number of steps of the whole system are bounded |
| SharedTarget.StuckOnlyWhenStopped | src/providers/arpc.rs:102-107 | In every reachable state after the broadcast, a producer that can take no step has stopped |
| SharedTarget.ParkedExactly | src/providers/shredstream.rs:82-89 | A producer comes to wait for shutdown alone exactly when its stream ends and its select drops an ended stream |
| BackendLoop.RunBackendLoop | src/backend.rs:368-490 | The loop as written is the turn-by-turn specification, well shaped, and its frames, status and end are those its turns call for |
| BackendLoop.LoopAsTold | src/backend.rs:385-489 | For every environment, with no reference to the loop's state: the first turn that ends the loop is its last, and frames and status are those of the turns up to it |
| BackendLoop.StatusExactly | src/backend.rs:385-489 | The status is Completed(data) iff the turn that ended the loop brought the completed message with that data, and Failed(message) iff message is that turn's own failure: backend error, close, socket error, end of stream, failed write or closed queue |
| BackendLoop.EveryRunIsWellShaped | src/backend.rs:385-489 | Signature frames in order, at most one end frame after them, a close frame only last and after completion; exactly one terminal status; pongs echo pings (sections 5.5.2 and 5.5.3 of RFC 6455) |
| BackendFinish.FinishReturnsTheOutcome | src/backend.rs:230-247 | Once the queue has taken the end command, finish returns Ok(data) iff the turn that ended the loop brought the completed message with that data, and otherwise that turn's failure, the loop's one terminal status; never "closed unexpectedly" |
| BackendFinish.FinishCanComplete | src/backend.rs:230-247 | For every signature and every data there is a run in which finish returns that data before the loop has written its close frame |
| BackendFinish.FinishIsNeverStuck | src/backend.rs:236-246 | With the terminal status out, a waiting finish always has a step, each of its steps brings it closer, nobody sets it back, the status stays, and what it ends with is the outcome |
| BackendFinish.WireFollowsQueue | src/backend.rs:385-458 | The data frames on the wire carry a prefix of the commands the queue took, in its order |
| Handshake.WaitForStartAck | src/backend.rs:292-366 | Succeeds exactly when the first message that is not passed over is an acknowledgement with an acceptable nonce, which then has 32 bytes; any other deciding message, or the end, is reported as its own error; every ping before it is answered |
| BackendFinish.ConnectStream | src/backend.rs:151-205 | Connecting succeeds exactly when the start message is written and the first message not passed over acknowledges with an acceptable nonce, which is decoded from it; the status channel is then given Ready after Initializing, and otherwise nothing after Initializing |
| Handshake.HexDecodes | src/backend.rs:307-311 | The nonce decodes if and only if it is an even number of hexadecimal digits, two to a byte |
| Handshake.HexBytes | src/backend.rs:307-308 | Each byte is sixteen times its first digit and its second |
| Handshake.TrimMeans | src/backend.rs:307-307 | Trimming leaves what lies between the first and the last character that is no white space |

## Left out

- Transports, TLS, DNS, connection builders, signing, message serialisation, base58 and blake3: library code, present only as environment choices. Base58 text and UTF-8 text are taken as texts.
- `compute_proof`, `send_signature`'s payload and the start message: a signature frame carries its envelope unchanged; the proof is a hash of its fields.
- `build_signature_envelope` and `enqueue_signature`: a sort by name of one map's entries, as in `Finalize`, and a push that drops when full.
- `jetstream.rs`, `thor.rs`, `shreder.rs`: the same counter and broadcast steps as `arpc.rs` with other message unwrapping.
- Table and console output, command line, configuration loading and validation, JSON reports.
- Float rounding and NaN. A fraction times a length that lies on a half can round the other way in 64-bit floats.
- Real time: a timeout may happen at any moment, and nothing is claimed about landing within a grace period.
- Interrupts (`ctrl_c`) as a second writer of the shutdown flag: the shared-target results assume that only the producers write the counter and the flag. Wrap-around of this counter and of the payload counter at 64 bits is not modelled.
- The loop task is assumed not to panic; a panicking task would drop the status sender without a terminal status. Its end drops its status sender and command receiver in one step.
- The driver's stop signal and a failed fetch show as runs in which no further round begins; a task that is stopped, fails to build or fails to send registers nothing.
- ComputeRun.ComputeRunSummary: hash maps are values passed along rather than shared objects, and the three iteration orders are parameters.
- LandingBooks.LandingBook.RecordSend: channels are entries of a store inside the book; the receiver ends live in the senders of `WakeUp`. A watch send that finds no receiver counts as sent, which no receiver can tell.
