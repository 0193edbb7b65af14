# OpenTrading, modelled and verified in Dafny

This project models the protocol and accounting cores of OpenTrading and proves
properties that hold over every input, every run or every interleaving. Each
stateful component is a value with a step function, about which the theorems
are stated, and a class whose methods and loops are proved to take exactly that
step. Prices, quantities and PnL are exact reals, times are integers.

- **MetaTrader 4 bridge** (`Mt4*.dfy`). The wire commands, the gate with its
  intent ledger and sequence counters, the simulated venue, the frame handler
  and the client's counters, under a network that may lose, repeat, delay and
  reorder frames. Main results: an intent trades at most once; executed commands
  are a prefix of the issued ones; redelivery is harmless; quantities are
  conserved; exactly which frames are answered, and that the handler never raises
  once the venue has acted.
- **Point-in-time market data** (`Md*.dfy`). Ingestion to bronze, deduplication to
  silver, the merge to gold, sealing by month with checksums, loading, queries as
  of a time, gap detection. Main results: no look-ahead end to end; gold holds
  exactly the earliest version of every identity; seal then load is a round trip;
  gaps are sound, complete and closed on every timeframe.
- **Worker** (`Worker*.dfy`, `Lifecycle.dfy`, `PaperLedger.dfy`). The stream bus and
  the recovery and dispatch passes over it, trade lifecycles under concurrent
  compare-and-set, the average-cost paper ledger. Main results: no message is lost;
  redelivery is bounded; lifecycles are paths in the table under every
  interleaving; average-cost PnL is cash plus market value.
- **Bars, signals, replay, upgrades** (`MinuteBars.dfy`, `Signals.dfy`, `Replay.dfy`,
  `Upgrades.dfy`). Main results: tick-by-tick bars are the batch bars; the offline
  replay trades exactly what the live signal says, and exactly which of its trades
  the warmed-up engine takes; upgrade resolution terminates on every registry and
  finds exactly the forced path.

`dafny verify dfyconfig.toml` checks everything.

## Where the code differs from the obvious claim

The model follows the code. These places are stated as exact conditions.

- `_quote` rounds half up although its description says down
  (adapters/mt4/broker.py:64-66). Together with the six-decimal quantisation a
  partial fill can exceed the order. `Mt4Lots.OverfillsExactly` says when, per
  order, and `Mt4Lots.FitsExactly` for which lot steps; conservation is proved for
  exactly the steps that cannot overfill, which include every step of 0.000001 or more.
- A modify that a newer modify has replaced in the ledger runs again when its
  content arrives in a new, in-sequence frame (`Mt4Safety.RetryExecutesExactly`). The
  original frame never does.
- `resync_sequences` takes the maximum, so one refused command leaves client and
  bridge out of step for good (`Mt4Delivery.GapIsForever`).
- Four kinds of frame make the handler raise, and the serve loop ends without an
  answer: JSON nested too deeply for the parser, JSON that is not an object, an
  unknown message type whose name cannot be encoded in the reply, and a message
  with a time that leaves the calendar in UTC (`Mt4Safety.HandlerAnswersExactly`,
  `Mt4Safety.UnansweredFrames`). Nothing has changed by then
  (`Mt4Safety.RaisingChangesNothing`).
- The redelivery bound needs a positive claim-idle time. With `claim_idle_ms` 0, the
  default, it fails for all but the smallest settings (`WorkerBound.BoundExactly`).
- `dead_letter` accounts for a message exactly when it is pending. Calls of two
  workers can interleave so that it is not (`WorkerLoop.AccountsExactly`,
  `WorkerLoop.InterleavedWorkersCanMiss`).
- Decimal texts round to the context precision, so two versions of a bar can share
  their canonical bytes. Deduplication and merge then keep the first ingested
  (`MdGold.GoldHoldsTheEarliest`); what does not depend on order is stated for
  decimals with different texts.
- The paper ledger drops the part of a closing fill beyond the open quantity
  (`PaperLedger.NettingExactly`), leaves partial closes out of trade outcomes
  (`PaperLedger.WholeClosesCarryPnl`, `PaperLedger.HalvesLosePnl`) and forgets entry costs on restart
  (`PaperLedger.AlikeStayAlike`).
- `seed_bars` checks for closed bars only, so seeding after a first live tick loses
  the bars that are not past its minute (`MinuteBars.SeedingLateExactly`).
- Monthly gaps step by the day of the previous bar, cut to the month's length. A
  month-end series that leaves a short month is therefore reported to have a gap
  although no month is missing (`MdGaps.LaterDayOfTheMonthIsAGap`).
- The replay starts at index `slow_ema`, one bar later than the live signal can, and
  agrees with it on all bars exactly while both periods fit the 400-bar series or no
  trade can happen (`Signals.ReplayAgreesWithLive`, `Signals.AgreementExactly`). The
  engine also waits for `slow_ema + atr_period + 2` bars, so the replay enters where
  the engine still skips (`Signals.ReplayTradesInTheWarmup`), and they agree from
  then on exactly when that many bars fit the series or no trade can happen
  (`Signals.EngineAgreementExactly`).

## Model

| member | source | states |
|---|---|---|
| `Mt4Protocol.Reframe` | adapters/mt4/emulator.py:277-289 | a replayed reply keeps the stored payload and takes correlation, sequence and timestamp from the retried command and the clock; an ack is flagged duplicate exactly when asked |
| `Mt4Gate.AcceptedExactly` | adapters/mt4/guards.py:65-128 | accepted if and only if a reconcile, or unexpired, new to the ledger (or an amendment with new content) and next in sequence; a refusal always carries a replay or an error, never both |
| `Mt4Gate.ForgottenReplyIsExecuted` | adapters/mt4/guards.py:65-128 | for every submit there is a gate state with a record lacking its reply whose refusal carries neither replay nor error, so the invariant of the previous row is needed |
| `Mt4Gate.RecordAfterAccept` | adapters/mt4/guards.py:130-141 | `record` never raises after an accepting `evaluate`, keeps every reply, forgets no submit or cancel and moves only the command's own counter |
| `Mt4Gate.IntentLedger.Lookup` | adapters/mt4/ledger.py:50-51 | returns the record stored under intent and command type, if any |
| `Mt4Gate.IntentLedger.Record` | adapters/mt4/ledger.py:56-62 | raises and changes nothing on a taken key unless replacing is allowed |
| `Mt4Gate.IntentLedger.AttachReply` | adapters/mt4/ledger.py:64-78 | raises on an unknown key, otherwise changes that record's reply only |
| `Mt4Gate.SequenceTracker.Accept` | adapters/mt4/ledger.py:108-115 | advances exactly the next number of one strategy, raises otherwise |
| `Mt4Gate.CommandGate.Evaluate` | adapters/mt4/guards.py:65-128 | the object computes the specified verdict and changes nothing |
| `Mt4Gate.CommandGate.Record` | adapters/mt4/guards.py:130-141 | the object moves to the specified gate state; a known intent raises before anything is written, a wrong sequence number after the ledger was written and the counters not |
| `Mt4Lots.WholeRemainderFills` | adapters/mt4/broker.py:541-551 | with no partial ratio a remainder on the lot grid is filled whole |
| `Mt4Lots.OverfillsExactly` | adapters/mt4/broker.py:64-66 | a partial fill exceeds the order if and only if the six-decimal quantisation lands at least half a lot step above the remainder |
| `Mt4Lots.StepOverfillsExactly` | adapters/mt4/broker.py:541-551 | a lot step admits an overfilled order if and only if some whole number of micro-lots lies at least half a step but less than half a micro-lot above some whole number of steps |
| `Mt4Lots.CoarseStepsFit` | adapters/mt4/broker.py:541-551 | every lot step of 0.000001 or more is free of overfills |
| `Mt4Lots.FitsExactly` | adapters/mt4/broker.py:541-551 | closed form: a lot step never overfills if and only if it is at least 0.000001, or (2j - 1)/2j of that for a whole j |
| `Mt4Lots.NeverOverfills` | adapters/mt4/broker.py:541-551 | with a fitting step every fill stays within the remainder and leaves a remainder on the grid |
| `Mt4Conservation.FillConserves` | adapters/mt4/broker.py:529-645 | one fill keeps the books of its order, of all other orders and of all positions |
| `Mt4Conservation.MatchConserves` | adapters/mt4/broker.py:262-272 | matching the whole book in order keeps the books, though orders leave the list while it is walked |
| `Mt4Conservation.SubmitConserves` | adapters/mt4/broker.py:275-325 | a submit, refused, resting or filled at once, keeps the books |
| `Mt4Conservation.CancelConserves` | adapters/mt4/broker.py:327-359 | a cancel moves exactly the remainder from resting to cancelled |
| `Mt4Conservation.ModifyConserves` | adapters/mt4/broker.py:361-412 | a modify keeps the books, whether it amends a resting order or is refused |
| `Mt4Conservation.QuantityIsConserved` | adapters/mt4/broker.py:262-359 | after every run of submits, cancels, modifies, quote steps and trading switches: requested = fills + resting or cancelled remainder; resting remainders are positive and on the lot grid; at most one partial and then at most one full fill; a cancelled order has no full fill and keeps its cancelled remainder; each position is its fill total at the weighted mean price; every filled intent has a position |
| `Mt4Conservation.ClosedOrdersStayClosed` | adapters/mt4/broker.py:262-412 | over every further run an order filled whole or cancelled gets no further fill and no further cancel |
| `Mt4Conservation.AdvanceConserves` | adapters/mt4/broker.py:262-272 | a quote step with matching keeps the books |
| `Mt4Identity.SubmitTraced` | adapters/mt4/broker.py:275-325 | on any lot step, a submit keeps working order ids pairwise distinct and every fill tied to a placed order of the same intent |
| `Mt4Identity.MatchTraced` | adapters/mt4/broker.py:262-272 | the same for matching the whole book |
| `Mt4Bridge.UnexecutedIsInert` | adapters/mt4/emulator.py:187-238 | a command that is not executed changes neither gate nor venue, emits nothing and is answered |
| `Mt4Safety.StepKeepsSafe` | adapters/mt4/emulator.py:187-308 | every frame, quote step and operator action keeps the joint invariant of gate, venue and history |
| `Mt4Safety.AtMostOneTradePerIntent` | adapters/mt4/guards.py:65-141 | over every run an intent is submitted to the venue at most once, owns at most one order and one position, and the position is the fills of that order at their mean price, within what it asked for |
| `Mt4Safety.HandlerAnswersExactly` | adapters/mt4/emulator.py:187-238 | in every reachable state a frame is answered if and only if it is none of: nested too deeply, not an object, of an unknown type that cannot be encoded, carrying a time off the calendar |
| `Mt4Safety.UnansweredFrames` | adapters/mt4/protocol.py:396-449 | in every reachable state a list, a type named by a lone surrogate and a command stamped after the last instant of the calendar go unanswered |
| `Mt4Safety.RaisingChangesNothing` | adapters/mt4/protocol.py:396-449 | the handler never raises once the venue has acted: when it raises, the frame is one of those four kinds and the whole world is unchanged |
| `Mt4Safety.RetryExecutesExactly` | adapters/mt4/guards.py:79-128 | a retry of executed content in a new frame runs again if and only if it is an unexpired, in-sequence modify whose record a newer modify has replaced |
| `Mt4Safety.RedeliveryIsHarmless` | adapters/mt4/guards.py:79-141 | redelivering the frame of any executed command, superseded modifies included, at any time leaves the whole world unchanged and emits nothing |
| `Mt4Safety.RetryRepeatsTheAnswer` | adapters/mt4/emulator.py:225-289 | a retried submit or cancel gets the stored payload back, correlated to the retry, and an ack is flagged duplicate |
| `Mt4Safety.ReconcileIsReadOnly` | adapters/mt4/emulator.py:240-275 | a reconcile changes nothing |
| `Mt4Delivery.ExecutionClient.NextSequence` | adapters/mt4/client.py:384-386 | counts one strategy up by one and returns the new number |
| `Mt4Delivery.ExecutionClient.Resync` | adapters/mt4/client.py:292-299 | the loop sets every counter to the larger of its own and the bridge's |
| `Mt4Delivery.ResyncNeverLowers` | adapters/mt4/client.py:292-299 | resynchronising takes the maximum for every strategy, so it never lowers a counter |
| `Mt4Delivery.AnswersAreTheCounters` | adapters/mt4/emulator.py:240-275 | a reconcile is answered with the bridge's counters |
| `Mt4Delivery.ExecutedIsAPrefixOfIssued` | adapters/mt4/ledger.py:102-118 | under loss, duplication, delay and reordering, what the bridge executed per strategy is numbered 1..n and is, frame for frame, a prefix of what the client issued |
| `Mt4Delivery.SendMovesGap` | adapters/mt4/client.py:301-335 | a command is taken only when client and bridge counters agree, and an untaken one widens the gap by one |
| `Mt4Delivery.GapCountsUntaken` | adapters/mt4/client.py:278-299 | on a lossless channel the client is ahead by exactly the commands refused or replayed since |
| `Mt4Delivery.GapIsForever` | adapters/mt4/client.py:292-299 | once a gap exists no resynchronisation closes it: the bridge takes no further command of that strategy from this client |
| `Mt4Delivery.RestartIsInStep` | adapters/mt4/client.py:278-299 | a fresh client on a bridge in any safe state that reconciles and resynchronises from the answer is in step if and only if the strategy is not the reconcile namespace, or the bridge already took a command in it; the bridge is unchanged |
| `Mt4Broker.SimulatedBroker.WorkingByIntent` | adapters/mt4/broker.py:663-667 | finds the first working order of an intent |
| `Mt4Broker.SimulatedBroker.PositionsByIntent` | adapters/mt4/broker.py:669-675 | finds the first position of an intent |
| `Mt4Broker.SimulatedBroker.UsedMargin` | adapters/mt4/broker.py:206-225 | the loop sums the margin of all positions |
| `Mt4Broker.SimulatedBroker.PositionEvent` | adapters/mt4/broker.py:593-645 | updates the positions as specified: nets into the intent's position or opens one |
| `Mt4Broker.SimulatedBroker.FillWorking` | adapters/mt4/broker.py:529-591 | fills one working order in place, to the specified venue state and events |
| `Mt4Broker.SimulatedBroker.Advance` | adapters/mt4/broker.py:262-272 | the matching loop reaches the specified venue state and emits the specified events |
| `Mt4Broker.SimulatedBroker.ProcessSubmit` | adapters/mt4/broker.py:275-325 | the method refines the venue function the conservation and safety theorems are about |
| `Mt4Broker.SimulatedBroker.Refusal` | adapters/mt4/broker.py:415-460 | the chain of venue checks returns the specified first refusal |
| `Mt4Broker.SimulatedBroker.ProcessCancel` | adapters/mt4/broker.py:327-359 | refines the specified cancel |
| `Mt4Broker.SimulatedBroker.ProcessModify` | adapters/mt4/broker.py:361-412 | refines the specified modify |
| `Mt4Broker.Emulator.HandleFrame` | adapters/mt4/emulator.py:187-238 | parse, gate, dispatch and record over the objects refine the specified handler; a frame that breaks the parser raises and changes nothing |
| `Mt4Broker.Emulator.DispatchCommand` | adapters/mt4/emulator.py:240-275 | routes a command to the venue call of its type and answers as specified |
| `MdKeys.SortKeeps` | adapters/market_data/hashing.py:48-50 | sorting keeps the multiset and is ascending |
| `MdKeys.AscendingIsUnique` | adapters/market_data/hashing.py:48-50 | an ascending arrangement under an injective key is determined by its multiset |
| `MdLeast.SortKept` | adapters/market_data/quality.py:99-142 | a stable sort and a filter commute |
| `MdLeast.LeastMeans` | adapters/market_data/pipeline.py:312-340 | what a stable sort puts in front is below no element and strictly below every earlier one |
| `MdBars.CanonicalIsInjective` | adapters/market_data/hashing.py:53-71 | equal canonical bytes mean equal hashed fields, among bars whose decimals have different texts |
| `MdBars.SomeEncodingIsFaithful` | adapters/market_data/hashing.py:43-45 | for every finite set of bars there is an encoding that tells its decimals and flags apart |
| `MdBars.FirstKnowableFirst` | adapters/market_data/hashing.py:53-71 | among versions of one identity the canonical order puts the one knowable first first |
| `MdBars.ChosenIsThePick` | adapters/market_data/hashing.py:53-71 | in any list one version per identity precedes all others in canonical order and strictly all listed earlier, and it is the first least one |
| `MdSilver.Deduplicate` | adapters/market_data/quality.py:99-142 | the loop over sorted rows with its seen-set computes the specified silver and counts the rows beyond the first of each identity |
| `MdSilver.SilverKeepsEveryBar` | adapters/market_data/quality.py:99-142 | silver is the multiset of bronze bars plus DUPLICATE marks |
| `MdSilver.SilverKeepsTheEarliest` | adapters/market_data/quality.py:99-142 | a row is unmarked if and only if it is the chosen version of its identity in the run: the earliest, and of equal canonical text the first; no assumption on the encoding |
| `MdSilver.SilverIgnoresBatchOrder` | adapters/market_data/quality.py:99-142 | permuting a batch whose decimals have different texts gives the same silver sequence |
| `MdGold.MergeGoldRows` | adapters/market_data/pipeline.py:312-340 | grouping and picking loops compute the specified merge |
| `MdGold.SurvivorIsLeast` | adapters/market_data/pipeline.py:312-340 | the survivor of an identity is least in merge order among its rows |
| `MdGold.MergePicks` | adapters/market_data/pipeline.py:312-340 | over all runs, merging the deduplicated rows of an identity picks the version chosen from everything ingested |
| `MdGold.GoldHoldsTheEarliest` | adapters/market_data/pipeline.py:312-340 | a bar is in gold if and only if it is the earliest-available version of its identity among everything ever ingested, and of equal canonical text the first ingested; no assumption on the encoding |
| `MdPointInTime.GoldIsStrict` | adapters/market_data/pipeline.py:237-302 | gold is strictly ascending in time, record id and source: one row per identity |
| `MdPointInTime.QueryServesThePast` | adapters/market_data/repository.py:118-143 | a bar is served if and only if it is in gold, was knowable and had happened by as_of, and lies in the window |
| `MdPointInTime.VisibleIsKnown` | adapters/market_data/repository.py:55-60 | a gold row is visible as of T if and only if it is chosen from what was knowable at T |
| `MdPointInTime.NoLookAhead` | adapters/market_data/repository.py:55-60 | putting any records not knowable at T anywhere into old runs, or whole runs of them anywhere among the old ones, and resealing changes no query and no snapshot as of T; no assumption on the encoding |
| `MdPointInTime.InsertedRun` | adapters/market_data/storage.py:143-148 | a run of records not knowable at T is such an extension wherever its key sorts among the old runs |
| `MdPointInTime.NoLookAheadInAnyOrder` | adapters/market_data/repository.py:118-175 | the same when runs and records also come in any other order, for decimals with different texts |
| `MdPointInTime.GoldIsTheEarliest` | adapters/market_data/pipeline.py:312-340 | where decimals have different texts, gold is a matter of the set of versions ingested |
| `MdPointInTime.GoldIgnoresRunOrder` | adapters/market_data/pipeline.py:312-340 | gold does not depend on the order in which runs are listed, for decimals with different texts |
| `MdPointInTime.GoldCoversEveryIdentity` | adapters/market_data/pipeline.py:312-340 | gold holds exactly one unmarked row per identity ever ingested and nothing else |
| `MdSealed.SplitThenJoin` | adapters/market_data/pipeline.py:237-302 | splitting rows in time order by month and concatenating the months is the identity |
| `MdSealed.SealThenLoad` | adapters/market_data/repository.py:90-115 | every checksum verifies and the sealed rows come back in order |
| `MdSealed.LoadedRowsAreTheSealedRows` | adapters/market_data/repository.py:90-115 | any load that succeeds, from any stored objects, agrees with the sealed rows on every hashed field, or the two are a collision of the digest |
| `MdSealed.SealedNoLookAhead` | adapters/market_data/repository.py:118-143 | two sealed versions, the later one with records not knowable at T in old runs or in runs anywhere among them, load and answer queries and the snapshot alike as of T |
| `MdStore.SealedIsFinal` | adapters/market_data/catalog.py:156-211 | no sequence of catalog calls changes a sealed version |
| `MdStore.MemoryCatalog.OpenDataset` | adapters/market_data/catalog.py:156-177 | opens a version exactly when it does not exist |
| `MdStore.MemoryCatalog.SealDataset` | adapters/market_data/catalog.py:179-211 | seals an open version, raises on a missing or sealed one |
| `MdStore.GroupByMonth` | adapters/market_data/pipeline.py:237-302 | the grouping loop yields months in first-seen order with their rows in order |
| `MdStore.LayerStore.WriteParts` | adapters/market_data/pipeline.py:237-302 | one object per month is written and listed, other versions untouched |
| `MdStore.LayerStore.Seal` | adapters/market_data/pipeline.py:211-302 | raises on empty silver or an existing version before any object is written; otherwise the store and catalog hold exactly what `SealThenLoad` needs |
| `MdStore.LayerStore.LoadGold` | adapters/market_data/repository.py:90-115 | the loading loop returns the specified rows or raises on the first mismatch |
| `MdGaps.DetectMissingBars` | adapters/market_data/quality.py:146-187 | grouping by instrument and timeframe without duplicates, then each group in turn, computes the specified gaps of the whole silver layer |
| `MdGaps.GroupSeries` | adapters/market_data/quality.py:150-154 | the grouping loop yields each series' times in order, series in first-seen order |
| `MdGaps.DetectInSeries` | adapters/market_data/quality.py:155-170 | the pairwise and stepping loops terminate and compute the gaps of one series |
| `MdGaps.SilverGapsExactly` | adapters/market_data/quality.py:146-170 | a gap of a silver layer is reported if and only if the series it names has that gap |
| `MdGaps.GapsAreExactlyMissing` | adapters/market_data/quality.py:146-187 | a gap is reported if and only if one or more steps of the timeframe lead from a bar to it and it is strictly before the next |
| `MdGaps.FixedGrid` | adapters/market_data/quality.py:173-187 | on every timeframe but the monthly one, steps lead to a time if and only if it lies a whole number of grid steps later |
| `MdGaps.MonthlyGrid` | adapters/market_data/quality.py:178-182 | a monthly step leads to the same time of day on the same day of the next calendar month, or on its last day when it is shorter |
| `MdGaps.LaterDayOfTheMonthIsAGap` | adapters/market_data/quality.py:155-182 | between bars of two consecutive months a gap is reported if and only if the second is on a later day of its month |
| `MdGaps.ReportedTimesHaveNoBar` | adapters/market_data/quality.py:146-187 | no reported time has a bar |
| `MdGaps.FillingLeavesNoGap` | adapters/market_data/quality.py:146-187 | with bars added at every reported time nothing is reported any more |
| `WorkerBus.ClaimedOrKept` | apps/worker/bus.py:439-457 | claiming leaves an entry as it is or, if stale, moves it to the claimer with one more delivery |
| `WorkerBus.TakeNewAccounted` | apps/worker/bus.py:387-406 | reading moves messages from undelivered to pending in stream order and keeps the books |
| `WorkerBus.ClaimAccounted` | apps/worker/bus.py:439-457 | claiming keeps the books |
| `WorkerBus.AckAccounted` | apps/worker/bus.py:459-461 | acknowledging keeps the books |
| `WorkerBus.DeadLetterAccountedExactly` | apps/worker/bus.py:463-466 | dead-lettering keeps the books if and only if the message is pending |
| `WorkerLoop.AccountsExactly` | apps/worker/bus.py:375-466 | after any interleaving of bus calls all accounts are right if and only if every dead_letter met its message pending; a miss is never repaired |
| `WorkerLoop.NothingIsLost` | apps/worker/bus.py:375-466 | when every dead_letter met its message pending, for every group and published message exactly one of undelivered, pending, acknowledged and dead-lettered holds |
| `WorkerLoop.InterleavedWorkersCanMiss` | apps/worker/pipeline.py:127-139 | two workers whose calls interleave can acknowledge and dead-letter the same message |
| `WorkerLoop.PassKeepsAccounts` | apps/worker/pipeline.py:120-202 | a whole pass keeps the books, also when it claims and dead-letters the same message |
| `WorkerBound.RedeliveryIsBounded` | apps/worker/pipeline.py:120-202 | over every run of one consumer's passes from a new group, any number of messages pending, any handlers, each message read at its own time after the claims: no pending message between passes has more than max_deliveries + 1 deliveries, as long as the claims of each pass fit one claim-idle window |
| `WorkerBound.BoundExactly` | apps/worker/pipeline.py:120-202 | on a clock that stands still during a pass the bound holds over all runs if and only if not all of: claim_idle_ms <= 0, batch >= 1, max_deliveries >= 1, batch and max_deliveries not both 1 |
| `WorkerBound.HastyBreaks` | apps/worker/pipeline.py:127-151 | such a configuration has a run that delivers a pending message max_deliveries + 2 times |
| `WorkerBound.ClaimKeepsLadder` | apps/worker/bus.py:439-457 | claims go front-first, so entries stay ordered by deliveries and then by time |
| `WorkerBound.OnePassRestoresTheBound` | apps/worker/pipeline.py:120-202 | from any state of one consumer with at most 100 pending, one pass within a window restores max_deliveries + 1, and on any clock leaves at most max_deliveries plus the number pending |
| `WorkerBound.ZeroIdleRedelivers` | apps/worker/pipeline.py:120-151 | with claim_idle_ms 0 one recovery over n pending messages within the limit delivers each of them n more times |
| `WorkerBound.BeyondThePageIsKept` | apps/worker/pipeline.py:120-151 | one recovery never dead-letters a message beyond the first 100 pending |
| `WorkerLoop.HandledExactly` | apps/worker/pipeline.py:162-202 | the dispatch loop removes exactly the messages with a successful handler |
| `WorkerLoop.FailedHandlersLeavePending` | apps/worker/pipeline.py:180-202 | after a pass a message is pending if and only if it was pending after reading and no handler call for it succeeded |
| `WorkerRuntime.StreamBus.Publish` | apps/worker/bus.py:375-379 | appends one event and returns its id |
| `WorkerRuntime.StreamBus.ReadNew` | apps/worker/bus.py:387-406 | the reading loop refines the specified group state and messages |
| `WorkerRuntime.StreamBus.ReadPending` | apps/worker/bus.py:408-424 | returns the first page of the consumer's own pending messages |
| `WorkerRuntime.StreamBus.ClaimStale` | apps/worker/bus.py:439-457 | the claiming loop refines the specified claim |
| `WorkerRuntime.StreamBus.Ack` | apps/worker/bus.py:459-461 | the id leaves the group's pending list; every other entry, the cursor, the dead list and all other groups stay; acknowledging what is not pending does nothing |
| `WorkerRuntime.StreamBus.DeadLetter` | apps/worker/bus.py:463-466 | moves the message of one group to its dead letters |
| `WorkerRuntime.StageWorker.Recover` | apps/worker/pipeline.py:120-152 | the recovery loop over a stale view refines the specified recovery |
| `WorkerRuntime.StageWorker.RunIteration` | apps/worker/pipeline.py:180-202 | one pass refines the specified pass that the bounds and accounts are about, and returns the numbers of reclaimed messages and of handlers that returned |
| `WorkerRuntime.StreamBus.Pending` | apps/worker/bus.py:426-437 | the first 100 entries in order with their ids and counts, and idle times that are never negative |
| `WorkerRuntime.StageWorker.MoveToDead` | apps/worker/pipeline.py:127-139 | dead-letters a poisoned message if it is on the first page of the worker's own pending messages |
| `Lifecycle.RankIsTheLongestWay` | core/domain/state_machines.py:82-117 | each state's rank is the length of the longest path from it in the transition table, so the table has no cycle |
| `Lifecycle.CommitExtendsTheCurrent` | apps/worker/persistence.py:391-404 | a compare-and-set that passes replaces exactly the record it was computed from |
| `Lifecycle.LifecyclesAreSafe` | apps/worker/lifecycle.py:27-84 | under every interleaving of read-then-write workers a lifecycle's history is a path in the table, each write on top of the one before, version counting the writes, nothing after a terminal state, at most seven transitions |
| `Lifecycle.TransitionArrives` | apps/worker/lifecycle.py:27-68 | an allowed transition without contention succeeds |
| `Lifecycle.ChainArrives` | apps/worker/lifecycle.py:71-84 | a chain along the table arrives with one version per target and touches no other lifecycle |
| `Lifecycle.PipelineStore.SaveLifecycle` | apps/worker/persistence.py:365-374 | stores a new lifecycle, returns the stored one of a known id |
| `Lifecycle.PipelineStore.UpdateLifecycle` | apps/worker/persistence.py:391-404 | writes if and only if the expected version is stored and the new version is its successor |
| `Lifecycle.PipelineStore.Transition` | apps/worker/lifecycle.py:27-68 | reads, decides and writes as specified |
| `Lifecycle.PipelineStore.TransitionChain` | apps/worker/lifecycle.py:71-84 | the loop refines the specified chain |
| `Lifecycle.PipelineStore.GetLifecycleByTrace` | apps/worker/persistence.py:387-389 | returns the current record of the lifecycle first saved for a trace |
| `PaperLedger.CashMovesWithTheBooks` | apps/worker/ledger.py:185-263 | per report, realized PnL plus the change in book cost is exactly the cash that moved |
| `PaperLedger.PnlIsCashPlusMarket` | apps/worker/ledger.py:185-263 | after every history of calls, for every instrument and mark, realized + unrealized PnL = cash flow of the applied quantities + net position at the mark |
| `PaperLedger.NettingExactly` | apps/worker/ledger.py:238-257 | a report moves the net position by its whole quantity if and only if it is not a close larger than the open position |
| `PaperLedger.CostsAndPnlAreConserved` | apps/worker/ledger.py:405-447 | every commission is in exactly one outcome or the open position; realized PnL is that of the outcomes' closing legs plus that of the closes that leave a remainder |
| `PaperLedger.OutcomesCarryPnlExactly` | apps/worker/ledger.py:405-447 | the outcomes carry all realized PnL if and only if the partial closes made none |
| `PaperLedger.NextFillCarriesPnlExactly` | apps/worker/ledger.py:405-447 | one fill keeps all realized PnL in the outcomes if and only if it does not close less than the open quantity at another price than the average |
| `PaperLedger.WholeClosesCarryPnl` | apps/worker/ledger.py:405-447 | over a history the outcomes carry all realized PnL after every call if and only if no fill is such a partial close |
| `PaperLedger.HalvesLosePnl` | apps/worker/ledger.py:405-447 | a position bought at once and sold in two halves ends flat with twice the PnL its outcome carries |
| `PaperLedger.Ledger.ApplyFill` | apps/worker/ledger.py:185-263 | raises on an empty or unpriced report and changes nothing; otherwise updates one instrument as specified, appends the outcome, closes the row of a closed trade, never touches closed rows and keeps open rows equal to positions |
| `PaperLedger.Ledger.Load` | apps/worker/ledger.py:94-109 | the loop restores the open rows, of two of one instrument the later |
| `PaperLedger.LoadedIs` | apps/worker/ledger.py:94-109 | the last open row of an instrument decides what is loaded for it |
| `PaperLedger.RestartRestoresPositions` | apps/worker/ledger.py:94-109 | a restarted ledger holds the same positions, without cost history and with the last intent only |
| `PaperLedger.AlikeStayAlike` | apps/worker/ledger.py:185-263 | the next call cannot tell, except that the costs of a closed trade miss the forgotten entry costs |
| `PaperLedger.RestartKeepsAccounting` | apps/worker/ledger.py:94-109 | over every later history a restart changes no realized PnL, no position and no number of outcomes |
| `MinuteBars.HighAndLow` | apps/live_supervisor/signals.py:108-112 | high and low of a group are attained and bound all its prices |
| `MinuteBars.GroupsPartition` | apps/live_supervisor/signals.py:89-112 | the groups partition the stream in order; each opens a minute no tick of it is past; opened minutes strictly increase |
| `MinuteBars.OrderedGroupsAreMinutes` | apps/live_supervisor/signals.py:89-112 | with times in order every group is exactly the ticks of its minute |
| `MinuteBars.IncrementalIsBatch` | apps/live_supervisor/signals.py:80-118 | for every tick stream, late ticks included, the closed bars are the last max_bars of the completed groups' bars and the current bar is the last group's |
| `MinuteBars.ClosedMinutesRise` | apps/live_supervisor/signals.py:89-118 | closed minutes strictly increase and every closed bar has low <= open, close <= high |
| `MinuteBars.SeedingReproducesExactly` | apps/live_supervisor/engine.py:113-122 | seeding a fresh series and one later tick give the bars back if and only if the kept ones have low <= open, close <= high |
| `MinuteBars.RestartRestoresBars` | apps/live_supervisor/engine.py:113-122 | bars built by any stream, seeded into a fresh series, come back unchanged at the next later tick |
| `MinuteBars.SeedingLateIsLost` | apps/live_supervisor/engine.py:113-122 | seeding a series that has a current minute not before the bars closes no bar at all |
| `MinuteBars.SeedingLateExactly` | apps/live_supervisor/engine.py:113-122 | seeding a series with a current minute and no closed bar, and one later tick: the bars not past that minute go into its bar, and that bar followed by the seeded bars past it, cut to the series length, is what is kept, if and only if those kept have low <= open, close <= high |
| `MinuteBars.MinuteBarSeries.OnPriceOf` | apps/live_supervisor/signals.py:89-112 | the in-place update refines the specified step |
| `MinuteBars.LiveEngine.OnQuote` | apps/live_supervisor/engine.py:100-104 | feeds the mid price to the symbol's series and to no other; unknown symbols are ignored |
| `MinuteBars.LiveEngine.SeedBars` | apps/live_supervisor/engine.py:113-122 | the loop feeds open, high, low and close of every bar, only when no bar is closed |
| `Signals.ComputeEma` | apps/live_supervisor/signals.py:69-77 | the loop computes the recursive average, and raises on no values |
| `Signals.EmaIsBetween` | apps/live_supervisor/signals.py:69-77 | the average lies within any bounds of its values |
| `Signals.ComputeLiveAtr` | apps/live_supervisor/signals.py:120-130 | the loop computes the mean of the last true ranges, None on too few bars |
| `Signals.ComputeAtrAt` | apps/strategy_lab/evaluator.py:41-49 | the loop computes the mean true range ending at an index, zero on too few bars |
| `Signals.AtrAgrees` | apps/strategy_lab/evaluator.py:41-49 | both average ranges agree at every index |
| `Signals.ReplayAgreesWithLive` | apps/strategy_lab/evaluator.py:104-118 | for every bar list and index the flat replay opens what the live signal says on the last bars held, from index slow_ema on |
| `Signals.TicksAgreeWithReplay` | apps/live_supervisor/signals.py:138-153 | the live signal after any tick stream is the replay decision on the bars of the whole stream |
| `Signals.LongPeriodsNeverTradeLive` | apps/live_supervisor/signals.py:120-153 | with slow_ema above or atr_period not below the series length, the live signal never trades |
| `Signals.NeverTrades` | apps/live_supervisor/signals.py:138-153 | equal periods or a one-bar window with a positive threshold never trade on either side |
| `Signals.AgreementExactly` | apps/strategy_lab/evaluator.py:104-118 | replay and live signal agree on all bars if and only if slow_ema <= length and atr_period < length, or no trade can happen at all: a positive threshold with equal periods or a one-bar window |
| `Signals.PositivePricesDiffer` | apps/strategy_lab/evaluator.py:104-118 | for thresholds below (slow - fast)/(fast + 1) and periods that do not fit, replay enters and the live signal does not on bars with positive prices |
| `Signals.EngineAgreesWhenWarm` | apps/live_supervisor/engine.py:174-181 | from bar slow + atr + 1 on the replay opens what the engine would, when the series holds the warm-up |
| `Signals.ReplayTradesInTheWarmup` | apps/live_supervisor/engine.py:174-177 | for every configuration that can trade there are bars, one short of the warm-up, on which the replay enters and the engine skips |
| `Signals.EngineAgreementExactly` | apps/live_supervisor/engine.py:174-181 | replay and engine agree on all bars from the end of the warm-up on if and only if the warm-up fits the series or no trade can happen; from index slow_ema on, if and only if no trade can happen |
| `Signals.TicksAgreeWithEngine` | apps/live_supervisor/signals.py:54-56 | after any tick stream with enough completed bars the engine decides what the replay does on the bars of the whole stream |
| `Replay.EveryTradeIsALiveSignal` | apps/strategy_lab/evaluator.py:52-120 | at every bar the books are explained by a list of trades: each entered at the first live signal after the one before closed, in its direction, held while no bar touches stop or take, and settled at the first that does; the engine takes such an entry if and only if it is warm by then |
| `Replay.EngineTakesExactly` | apps/live_supervisor/engine.py:174-181 | in any explanation of the books the engine takes exactly the trades entered after its warm-up |
| `Replay.ExplanationIsUnique` | apps/strategy_lab/evaluator.py:92-118 | that list of trades is unique |
| `Replay.TradesMakeTheirDistance` | apps/strategy_lab/evaluator.py:69-90 | each such trade made exactly its stop or its take distance less the spread |
| `Replay.FlatFollowsLive` | apps/strategy_lab/evaluator.py:104-118 | a replay that is flat after the exits of a bar opens if and only if the live signal says so, in that direction, at the close; once warm, if and only if the engine would |
| `Replay.GainsAndLosses` | apps/strategy_lab/evaluator.py:120-139 | total and count of outcomes split into those of gains and losses |
| `Replay.CloseAt` | apps/strategy_lab/evaluator.py:81-90 | one close updates outcomes, profit, loss and wins as specified |
| `Replay.TryEntry` | apps/strategy_lab/evaluator.py:104-118 | opens exactly the specified position, or none |
| `Replay.Run` | apps/strategy_lab/evaluator.py:52-139 | the loop's result sums up the settled outcomes: trades, wins, total = profit - loss, profit factor and expectancy with their empty cases |
| `Upgrades.TrailIsUnique` | core/events/upgrades.py:44-65 | there is at most one path of forced hops to where a walk must stop |
| `Upgrades.NoVersionTwice` | core/events/upgrades.py:44-65 | a chain visits no version twice |
| `Upgrades.ResolvesExactly` | core/events/upgrades.py:44-65 | on every registry a chain is returned if and only if it is the path of forced hops to the target |
| `Upgrades.AmbiguousExactly` | core/events/upgrades.py:44-65 | an ambiguity is reported if and only if forced hops lead to a fork short of the target |
| `Upgrades.ChainSplits` | core/events/upgrades.py:44-65 | chain(a, c) = chain(a, b) + chain(b, c) for every version b on it |
| `Upgrades.RegisteringKeepsChainsExactly` | core/events/upgrades.py:35-41 | a newly registered hop keeps a resolved chain if and only if it does not start at a version on it |
| `Upgrades.UpgradeIsIdempotent` | core/events/upgrades.py:68-85 | an upgraded payload carries the target version and upgrades to itself |
| `Upgrades.StagedUpgradeIsDirect` | core/events/upgrades.py:68-85 | with upgraders that leave the version field alone, upgrading via any version on the chain is upgrading at once, failures included |
| `Upgrades.UpgradeRegistry.Register` | core/events/upgrades.py:35-41 | raises on a taken key, otherwise adds one hop |
| `Upgrades.UpgradeRegistry.UpgradeChain` | core/events/upgrades.py:44-65 | the loop terminates on every registry, cyclic ones included, with the specified outcome |
| `Upgrades.UpgradeRegistry.UpgradePayload` | core/events/upgrades.py:68-85 | the loop refines the specified upgrade |

## Left out

- Sockets, threads, heartbeats and quote publishing of the bridge and its client: one handled frame is one atomic step.
- Reply message identifiers and the JSON, checksum and schema validation of frames: a frame is a parsed command or one of the ways of not being one.
- The random walk of quotes: quotes are inputs, taken to be positive with bid not above ask.
- Manual positions of the simulated venue, and commission and margin totals: commission is debited on the final fill only, so cost conservation is not a property of the code.
- Identity of working-order objects: they are values in the broker's list, so two references to one order are not modelled.
- Decimal context: arithmetic is exact except where the code quantises or rounds, and traps nothing, so a price with an exponent above 999999 that overflows in the stop-level check is not modelled.
- PostgreSQL, Redis, MinIO and Parquet: the in-memory stores are modelled.
- SHA-256 and canonical bytes: digests are functions about which nothing is assumed; canonical bytes are ordered tuples of encoded fields.
- Ingestion runs that fail, provider normalisation and snapshot provenance.
- The end of the calendar in gap detection: a step beyond year 9999 raises in the code and continues here.
- Lookup of lifecycles by order or proposal, and run records: `update_lifecycle` does not maintain those indexes.
- Stage handlers and the risk engine: a handler is only its success or failure.
- Account-currency conversion through the base currency, account and portfolio views, price paths: the cash identity does not hold across conversion prices.
- EMA and ATR periods below one, where the code divides by zero or reads an empty window.
- Spread and quote-age gates of the live cycle, order sizing and `floor_to_step`, replay scores.
- The registry of payload classes and the two concrete market-snapshot upgraders: the target version and the upgraders are inputs.
- Nautilus, TradingAgents, RD-Agent, Qlib and Obsidian adapters, the API, the command center, observability, settings and scripts.
- Mt4Delivery.GapCountsUntaken: stated for one client incarnation on a lossless channel, as the counters are only then comparable.
- WorkerBound.RedeliveryIsBounded: stated for one consumer per group.
- Lifecycle.Decide: the extra columns of a transition are others than state and version; the code applies them last, so a caller passing either would override it.
