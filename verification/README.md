# DarkPool exchange: a verified model

This project models the matching and persistence core of the DarkPool exchange in Dafny and proves what it keeps:

- **the batch auction**: one uniform clearing price per pair and round, fills in strict price-time order, no self-trades;
- **the event-sourced engine**: operations append events under a lock and update a projection in place; recovery rebuilds
  the projection from snapshot envelopes and whatever the event log still holds;
- **batch settlement**: claims of matches by batches, re-aggregation of orphans, the submission protocol;
- **two limiters of the API**: the reference-counted stream limiter and the token bucket with eviction.

`dafny verify dfyconfig.toml` checks everything.

## How it is built

Amounts (`Decimal`) are integers counting 1e-28, the finest a price or size can be; `Encoding.QUANTUM` is 1e-8, the finest
that encodes for settlement. Identifiers, addresses and digests are numbers compared for equality. Decryption, pair parsing,
hashing and commitments are fixed but arbitrary functions (`Projection.Codec`), except that parsing yields canonical names,
which `Admission.ParserIsCanonical` shows of the actual parser. The snapshot cipher is an ideal authenticated cipher. Time,
random identifiers, and whether the store, the aggregator or the submitter fails are inputs.

| modules | what they hold |
|---|---|
| `Encoding`, `Priority`, `Clearing`, `Matching`, `Auction`, `Fairness`, `Optimality`, `AuctionLoops` | the auction: what it means, what it guarantees, and its loops proved to compute it |
| `PairName`, `Events`, `BookSpec`, `Projection`, `Legality`, `History`, `Conservation` | what an event log means, which logs are lawful, and what every lawful log preserves |
| `Operations`, `Refinement`, `Rounds`, `Admission`, `Outcomes` | the operations as plans of events, each shown to keep log and state in step, and what each comes to for a caller |
| `Recovery`, `Checkpoint`, `Truncation`, `Orphans`, `Reaggregation`, `Settlement`, `Batches`, `Rebuilding` | replay, booting from envelopes or from what is left of the log, batches with their matches and settlement rows |
| `System`, `SystemSafety`, `Runs`, `Losses` | the whole system as a state machine with crashes, failed appends, compaction and corruption, its theorems over all runs, and exactly what a crash can lose |
| `OrderBook`, `EventStore`, `Engine`, `Ticks`, `Replayer` | the same code in its own imperative form, each method proved against the specification above |
| `EnvelopeFormat`, `Submission`, `StreamLimiter`, `TokenBucket`, `RateLimiter`, `Eviction` | envelope bytes, the submission protocol, the two limiters |

The book a process holds is compared through `CoreOf`: resting orders with what is left of them, pair registry, auction log and the
three sets of spent keys. Pending batches, the number of the last event applied to the book, and submission times are not part of
that comparison, because the code does not keep them equal across a restart.

## Findings

Where the code does not meet what its comments promise, the model follows the code, a lemma exhibits the failure, and another
states when the promise holds: exactly, except where the entry says that the condition is only sufficient.

- The clearing price "stays in [lo, hi]" (`crates/dp-auction/src/lib.rs:126-129`) exactly when an amount with 8 decimals lies
  between the two and halving an odd sum, which is itself rounded, does not tip the rounding away from it. Admission guarantees
  both (`Encoding.MidpointStaysInRange`, `Encoding.MidpointCanLeaveRange`, `Encoding.MidpointEncodes`).
- Fills trade the maximal volume whenever no trader is willing on both sides at the clearing price
  (`Optimality.RunTradesEverything`; `Optimality.SeparateTradersNeverMeet` for traders on one side only). Otherwise they can fall short:
  two bids and two asks of one unit trade one unit, although two could trade without a self-trade
  (`Optimality.SelfTraderCostsVolume`). They fall short exactly when a trader is left willing on both sides
  (`Optimality.RunFallsShortExactly`), by at most what that trader has there (`Optimality.RunVolume`). As a condition on the orders
  before the auction, the absence of such a trader is only sufficient: priority decides whether that trader is served by others.
- A number lost right after a snapshot, as a rolled-back insert loses one (`crates/dp-event/src/pg_store.rs:111-128`), makes the
  boot from that intact snapshot refuse (`Losses.IntactNewestCanRefuse`). As long as no envelope disappears only that does
  (`Runs.NewestEnvelopeBootsExactly`). The batch event that recovery itself appends can leave such a hole, and then the next restart
  refuses (`Reaggregation.RestartAfterRecovery`).
- A number lost *before* a snapshot is worse where the store counts it: a failed append of the file store raises the number that a
  snapshot is keyed under, and its bytes are lost if the process dies before they are flushed
  (`crates/dp-event/src/file_store.rs:108-121`). The watermark then lies above every stored event, the reopened store reuses the
  numbers below it (`crates/dp-event/src/file_store.rs:64-104`), and events appended there are skipped by the next boot
  (`Losses.BurnedNumberLosesAnEvent` is such a run from the beginning). The theorems about runs therefore ask that no watermark ever
  written was above the last stored number when the process crashed. That is the exact condition: a crash meets it if and only if
  no moves after it, their own crashes meeting it, end in a state the history contradicts (`Losses.CrashIsSafeExactly`). These moves
  include tampering, which can put back any envelope ever written. A state captured but not yet written endangers nothing
  (`Losses.UnwrittenCaptureIsSafe`). The condition holds by itself if failed appends use up no numbers (`Runs.UnburnedRunsAreSafe`).
- `crates/dp-engine/src/engine.rs:227-233` says a captured watermark matches exactly what was serialised. That is true of the
  compared state but not of pending batches: a snapshot taken between the append of a closing event and the removal of its batch
  keeps the batch forever, and a restart from it brings the batch back (`Submission.CaptureAgreesExactly`,
  `Submission.CaptureCanDisagree`, `Orphans.ClosedBatchComesBack`).
- Replay gives a whole round to its first batch, so a round is rebuilt as it was submitted exactly when it fitted one batch
  (`Settlement.ChunkedRoundsRebuildExactly`).
- A boot from a snapshot starts with no orphans (`crates/dp-engine/src/recover.rs:228`). It re-aggregates what the whole log leaves
  unclaimed exactly when no auction has matches stranded at or below the watermark (`Orphans.SnapshotKeepsOrphansExactly`).
- Without a snapshot store, or with one that lists nothing, nothing checks that the log is complete
  (`Truncation.BootWithoutStoreCanLie`). What is left then always replays, and rebuilds what the entire history means exactly when no
  placement and no auction was compacted away, and every registration that was is of the default configuration and has an order
  placed on its pair in what is left (`Truncation.BootUnaskedExactly`).
- A batch refused for missing inputs is never sent afterwards (`Submission.RefusedStaysRefused`), even if its payload is attached
  later (`Submission.PayloadCanComeTooLate`).
- Evicting idle rate-limit buckets is invisible exactly when the rate refills a bucket within the idle limit
  (`Eviction.EvictionIsInvisibleAtRate`).

## Model

| member | source | states |
|---|---|---|
| `Encoding.MidpointStaysInRange` | crates/dp-auction/src/lib.rs:119-133 | the rounded midpoint of two prices lies between them if and only if an amount with 8 decimals does and rounding the halved sum first does not tip it away |
| `Encoding.MidpointIsNearest` | crates/dp-auction/src/lib.rs:130-132 | the midpoint has 8 decimals and is the nearest such amount to the middle, the even one of two equally near; an odd sum loses half a step to the first rounding |
| `Encoding.MidpointCanLeaveRange` | crates/dp-auction/src/lib.rs:126-132 | two concrete pairs of prices whose rounded midpoint is outside their range, one for each half of the condition |
| `Encoding.MidpointEncodes` | crates/dp-client/src/encoding.rs:10-34 | for encodable prices the midpoint lies between them and encodes itself |
| `Clearing.NoPriceTradesMore` | crates/dp-auction/src/lib.rs:92-117 | no price at all, candidate or not, trades more than the best candidate |
| `Clearing.ClearingPriceIsBest` | crates/dp-auction/src/lib.rs:92-133 | the clearing price attains the maximum over all prices of the smaller of demand and supply, is positive and encodes |
| `Clearing.ClearingPriceIsCentral` | crates/dp-auction/src/lib.rs:121-132 | the clearing price has 8 decimals and lies midway between the lowest and the highest price of any order, bid or ask, at which no price trades more, to within half of 1e-8 when they are encodable |
| `Clearing.TradableIffCrossed` | crates/dp-auction/src/lib.rs:66-78 | something can trade at some price if and only if the best bid reaches the best ask |
| `Clearing.VolumeFits` | crates/dp-auction/src/lib.rs:135-141 | the volume of a full book of encodable sizes fits a 96-bit decimal, so sums do not overflow |
| `Priority.SortSorts` | crates/dp-auction/src/lib.rs:59-65 | sorting yields a permutation in price-time order |
| `Priority.SortIgnoresArrangement` | crates/dp-auction/src/lib.rs:59-65 | orders with distinct sequence numbers sort to the same list however they were arranged |
| `Auction.RunIgnoresArrangement` | crates/dp-auction/src/lib.rs:54-90 | the whole result, price and matches in order, depends only on the set of orders |
| `Matching.MatchAllSound` | crates/dp-auction/src/lib.rs:148-232 | fills balance against what is left, are genuine, exhaust one side of every willing pair of different traders, and respect priority |
| `Fairness.RunIsFair` | crates/dp-auction/src/lib.rs:54-232 | every fill is legal at one price, no order is overfilled, nothing tradable is left, and whoever is ahead of a filled order is spent or belongs to its counterparty |
| `Optimality.RunVolume` | crates/dp-auction/src/lib.rs:54-232 | matched volume falls short of the maximum by at most one trader's own crossing volume, and by nothing if that trader is on one side only |
| `Optimality.RunTradesEverything` | crates/dp-auction/src/lib.rs:54-232 | with no trader willing on both sides at the clearing price, matched volume is the maximum over all prices |
| `Optimality.RunFallsShortExactly` | crates/dp-auction/src/lib.rs:54-232 | matched volume is below the maximum if and only if some trader is left willing on both sides |
| `Optimality.SelfTraderCostsVolume` | crates/dp-auction/src/lib.rs:148-232 | a concrete book on which the greedy sweep trades one unit where two could trade without a self-trade |
| `Optimality.NothingTradesMore` | crates/dp-auction/src/lib.rs:54-232 | with no trader willing on both sides at the clearing price, no limit-respecting set of fills at any single price trades more |
| `Optimality.RunIffCounterparties` | crates/dp-auction/src/lib.rs:54-90 | a result is returned if and only if two orders of different traders can trade at the clearing price |
| `Optimality.RunIffCrossed` | crates/dp-auction/src/lib.rs:54-90 | with no trader willing on both sides at the clearing price, a result is returned if and only if the best bid reaches the best ask |
| `Optimality.RunClearsCentrally` | crates/dp-auction/src/lib.rs:92-133 | a returned result clears, to within half of 1e-8, midway between the lowest and the highest price of any order at which the most trades |
| `AuctionLoops.TiedPrices` | crates/dp-auction/src/lib.rs:100-117 | the loop over candidates ends with exactly the prices that tie for the greatest volume, ascending |
| `AuctionLoops.ComputeClearingPrice` | crates/dp-auction/src/lib.rs:92-133 | the loops compute the clearing price whose optimality is proved |
| `AuctionLoops.MatchOrders` | crates/dp-auction/src/lib.rs:148-232 | the nested loops that decrement sizes in place produce the fills whose fairness is proved |
| `AuctionLoops.RunAuction` | crates/dp-auction/src/lib.rs:54-90 | the procedure computes the auction result all theorems are about |
| `PairName.ParseIdempotent` | crates/dp-types/src/pair.rs:24-45 | parsing a canonical name changes nothing |
| `PairName.ParseExactly` | crates/dp-types/src/pair.rs:24-45 | a name is accepted if and only if, trimmed, it has two sides separated by its first slash, dash or underscore and only letters, digits and separators, and then as that in upper case; an empty one is reported as missing |
| `BookSpec.FreshEventsApply` | crates/dp-book/src/book.rs:253-286 | events numbered above the book's all take effect: the dedupe guard discards none |
| `BookSpec.ReapplyingChangesNothing` | crates/dp-book/src/book.rs:253-286 | applying already-applied events again, in any order, changes nothing |
| `OrderBook.OrderBook.InsertOrder` | crates/dp-book/src/book.rs:98-106 | the nested maps gain exactly the order, filed under its pair and side |
| `OrderBook.OrderBook.RemoveOrder` | crates/dp-book/src/book.rs:288-301 | the order leaves whichever sub-book holds it, no other order moves, and no empty sub-book remains |
| `OrderBook.OrderBook.ApplyFill` | crates/dp-book/src/book.rs:303-338 | a fill reduces the named order, removes it when spent, and is refused when too large |
| `OrderBook.OrderBook.Apply` | crates/dp-book/src/book.rs:253-286 | the in-place update refines the specified effect of an event, guard included |
| `OrderBook.OrderBook.FindOrder` | crates/dp-book/src/book.rs:175-183 | scanning the sub-books finds the order if and only if it rests |
| `OrderBook.OrderBook.HasOrder` | crates/dp-book/src/book.rs:185-191 | true if and only if the order rests |
| `OrderBook.OrderBook.AllOrders` | crates/dp-book/src/book.rs:140-148 | collects exactly the resting orders |
| `OrderBook.OrderBook.ActiveOrderCount` | crates/dp-book/src/book.rs:193-200 | the sum over sub-books is the number of resting orders |
| `OrderBook.OrderBook.ActiveOrderCountForTrader` | crates/dp-book/src/book.rs:202-218 | the filtered sum is the number of the trader's resting orders |
| `OrderBook.OrderBook.CollectExpired` | crates/dp-book/src/book.rs:155-173 | lists exactly the orders whose expiry is set and reached, each once |
| `OrderBook.OrderBook.OrderIdsFor` | crates/dp-book/src/book.rs:234-243 | lists exactly the pair's orders, each once |
| `OrderBook.OrderBook.SideOrders` | crates/dp-book/src/book.rs:116-136 | returns exactly one side of a pair, in price-time order |
| `OrderBook.OrderBook.RestoreFrom` | crates/dp-book/src/book.rs:72-85 | a restored book holds exactly what the snapshot held |
| `Legality.LawfulStep` | crates/dp-engine/src/engine.rs:699-720 | every lawful event keeps every resting order positive and encodable, placements distinct, delisted pairs empty, and both capacity limits |
| `History.LawfulReplays` | crates/dp-engine/src/recover.rs:398-678 | replaying a lawful log never fails and ends in a state with all those properties |
| `History.NoReplayedPlacement` | crates/dp-engine/src/engine.rs:857-892 | no two placements of a lawful log share a ciphertext digest, a nullifier or a trader nonce |
| `History.DelistedForever` | crates/dp-engine/src/engine.rs:357-463 | a delisted pair stays delisted and has no resting orders from then on |
| `Conservation.SizeIsConserved` | crates/dp-book/src/book.rs:303-338 | in every state of every lawful log an order has left its size minus its recorded fills, and more than nothing |
| `Conservation.NothingOverfills` | crates/dp-book/src/book.rs:307-326 | the overfill branch is unreachable |
| `Conservation.FillsBalance` | crates/dp-auction/src/lib.rs:194-210 | as much is recorded bought as sold |
| `Admission.AdmittedOrderReplays` | crates/dp-engine/src/engine.rs:501-697 | whatever passes every admission check is rebuilt from its event exactly, under any number |
| `Admission.AdmittedExactly` | crates/dp-engine/src/engine.rs:501-697 | a submission is admitted if and only if length, digest, plaintext, caller, pair, grid, amounts, expiry, salt, nonce, balance and proof are all in order |
| `Admission.RefusalIsFault` | crates/dp-engine/src/engine.rs:501-697 | a refusal names something that is wrong with the submission |
| `Admission.FaultIsRefused` | crates/dp-engine/src/engine.rs:501-697 | whatever is wrong with a submission, it is refused, for that or for what is checked earlier |
| `Admission.AdmittedOrderIsPlaintext` | crates/dp-engine/src/engine.rs:618-636 | the admitted order has the trader, side, price, size, expiry and key of the plaintext and its canonical pair |
| `Admission.ConfigIsForever` | crates/dp-engine/src/engine.rs:317-349 | nothing about a registered pair ever changes but its status |
| `Admission.AdmissionSurvivesRaces` | crates/dp-engine/src/engine.rs:576-895 | an order placed after any interleaved operations still fits the minimum and tick of a pair that is active at that moment |
| `Admission.ParserIsCanonical` | crates/dp-engine/src/recover.rs:689-693 | the actual parser meets the canonicity every replay theorem asks for |
| `Refinement.PlaceRefines` | crates/dp-engine/src/engine.rs:809-895 | an admitted order's event is lawful and means exactly the state the live path leaves |
| `Refinement.RegisterRefines` | crates/dp-engine/src/engine.rs:317-349 | a registration's event is lawful and means the state left |
| `Refinement.SuspendRefines` | crates/dp-engine/src/engine.rs:357-387 | a suspension's event, or its absence when repeated, means the state left |
| `Refinement.CancelRefines` | crates/dp-engine/src/engine.rs:897-915 | a cancel's event is lawful and means the state left |
| `Refinement.FinalizeRefines` | crates/dp-engine/src/batch.rs:22-61 | a submission's event leaves the compared state alone, live and on replay |
| `Refinement.DelistRefines` | crates/dp-engine/src/engine.rs:405-463 | the cancels and the delisting are lawful together and mean the state left |
| `Refinement.ExpireRefines` | crates/dp-engine/src/tick.rs:278-293 | the expiry events are lawful and mean the state left |
| `Rounds.RoundIsSettleable` | crates/dp-engine/src/tick.rs:339-347 | in every healthy state a round's clearing price encodes, so the gate never refuses it |
| `Rounds.RoundRefines` | crates/dp-engine/src/tick.rs:310-417 | a round's events are lawful one after the other and mean the state left |
| `Rounds.OperationRefines` | crates/dp-engine/src/engine.rs:317-463 | every operation's events are lawful and replay to exactly the state it leaves |
| `Outcomes.NothingHalfDone` | crates/dp-engine/src/engine.rs:317-463 | an operation that is refused or that the store fails changes neither state nor log |
| `Outcomes.Registered` | crates/dp-engine/src/engine.rs:317-349 | refused if and only if the name is bad or in use; done, the pair has the given configuration and the log exactly its registration more |
| `Outcomes.SuspendedIs` | crates/dp-engine/src/engine.rs:357-387 | refused if and only if the pair is bad, unknown or delisted; done, it is suspended, and logged unless it was before |
| `Outcomes.DelistedIs` | crates/dp-engine/src/engine.rs:405-463 | refused if and only if the pair is bad or unknown; done, it is delisted, exactly its orders are gone, and each of them has a cancel in the log |
| `Outcomes.PlacementRefusedExactly` | crates/dp-engine/src/engine.rs:845-872 | a placement is refused if and only if pair, spent keys or one of the two limits keep it out, and for the first such reason |
| `Outcomes.PlacedIs` | crates/dp-engine/src/engine.rs:873-895 | done, exactly that order rests in addition, numbered by its event, and its three keys are spent |
| `Outcomes.CancelledIs` | crates/dp-engine/src/engine.rs:897-915 | refused if and only if the order does not rest; done, exactly that order is gone and its cancel logged |
| `Outcomes.ExpiredIs` | crates/dp-engine/src/tick.rs:278-293 | never refused; done, what rests is exactly what has no expiry or has not reached it |
| `Outcomes.FinalizedIs` | crates/dp-engine/src/batch.rs:22-61 | never refused; done, exactly that batch is pending in addition and its submission logged |
| `Outcomes.RoundDone` | crates/dp-engine/src/tick.rs:310-417 | a recorded round has one price and fair matches between resting orders, leaves nothing that would still trade there, reduces every order by exactly its fills, and is in log and auction log with its volume and count |
| `Outcomes.RoundRefusedExactly` | crates/dp-engine/src/tick.rs:310-347 | a round is refused if and only if no two orders of different traders are willing at the clearing price |
| `Recovery.ReplayEventFollowsStep` | crates/dp-engine/src/recover.rs:398-678 | replaying one event fails exactly when the log is meaningless there and otherwise computes its meaning |
| `Recovery.RebuildFailsExactly` | crates/dp-engine/src/recover.rs:405-480 | a stored placement fails to replay if and only if decryption, salt, amounts, commitment, nonce, expiry or pair is at fault, and for the first of them |
| `Recovery.ReplayFollowsFold` | crates/dp-engine/src/recover.rs:291-309 | replaying a stretch of log computes what it means |
| `Checkpoint.RestoreThenReplay` | crates/dp-engine/src/recover.rs:251-309 | restoring an envelope and replaying everything above its watermark gives what the whole log means |
| `Checkpoint.BootIsFaithfulOrRefuses` | crates/dp-engine/src/recover.rs:73-309 | whatever was compacted and whichever envelopes no longer open, a boot rebuilds the meaning of the entire history or refuses; only if it is shown no envelope at all does it replay an incomplete log unasked |
| `Checkpoint.BootsFromOpeningExactly` | crates/dp-engine/src/recover.rs:98-184 | with the newer envelopes unreadable, a boot from the newest one that opens succeeds if and only if the log reaches down to it and its next number was not lost |
| `Checkpoint.BootsFromScratchExactly` | crates/dp-engine/src/recover.rs:98-170 | with no envelope that opens, a boot succeeds if and only if the log still starts with event 1 |
| `Checkpoint.BootsFromNewestExactly` | crates/dp-engine/src/recover.rs:178-184 | with the newest envelope intact a boot succeeds if and only if the log reaches down to it and the number after its watermark was not lost |
| `Truncation.BootWithoutStoreCanLie` | crates/dp-engine/src/recover.rs:251-289 | a compacted log replayed without a snapshot store boots to a state the history contradicts |
| `Truncation.BootUnaskedExactly` | crates/dp-engine/src/recover.rs:251-309 | a boot shown no envelope never fails, and is faithful if and only if nothing compacted was a placement, an auction, or a registration that the rest does not restore as the default pair |
| `Truncation.LawfulRegistry` | crates/dp-engine/src/recover.rs:614-678 | over every lawful log the registry holds exactly the registered pairs, each as it was registered but for its status |
| `SystemSafety.MoveKeepsInv` | crates/dp-engine/src/snapshot.rs:264-310 | every move, with snapshot steps split by crashes and envelopes corrupted, put back or lost, keeps log, envelopes, floor, live state and secrets consistent |
| `Runs.RunKeepsInv` | crates/dp-engine/src/snapshot.rs:264-310 | that consistency holds after every run |
| `Runs.UnburnedRunsAreSafe` | crates/dp-event/src/mem_store.rs:32-39 | if failed appends use up no numbers, every crash of every run is safe |
| `Runs.LiveStateIsReplayedHistory` | crates/dp-engine/src/recover.rs:197-309 | after any run a live state is exactly the replay of the entire history, and is within all limits |
| `Runs.HistoryHasNoReplays` | crates/dp-engine/src/engine.rs:833-892 | after any run with restarts no two placements share a replay key |
| `Runs.HistoryConservesSize` | crates/dp-engine/src/tick.rs:363-417 | after any run every resting order has left its size minus all its fills |
| `Runs.HistoryBalances` | crates/dp-book/src/book.rs:303-338 | after any run buys equal sells and no fill exceeded what its order had left |
| `Runs.DelistedThroughRuns` | crates/dp-engine/src/engine.rs:357-463 | a delisted pair stays delisted and empty through any moves, crashes and boots |
| `Runs.AdmittedOrdersHaveSecrets` | crates/dp-engine/src/engine.rs:798-895 | after any run every resting order this process admitted has its secret |
| `Runs.PrunedSecretsAreExact` | crates/dp-engine/src/engine.rs:798-802 | after any run, pruning leaves exactly the secrets of the resting orders this process admitted |
| `Runs.DroppedSecretIsDead` | crates/dp-engine/src/engine.rs:897-915 | after any run, the secret a cancel or delisting discards is exactly its own and never one of a resting order |
| `Runs.GuardDiscardsNothing` | crates/dp-engine/src/batch.rs:215-232 | whatever was appended off the lock, an operation's events are numbered above the book's and all take effect |
| `Runs.RetentionKeepsAnEnvelope` | crates/dp-engine/src/snapshot.rs:286-308 | after any run in which no envelope disappears by itself, a compacted log has an envelope at or above its floor |
| `Runs.CompactionRetains` | crates/dp-engine/src/snapshot.rs:286-293 | compaction keeps everything numbered within the retention of the watermark and discards everything below |
| `Runs.PruningRetains` | crates/dp-engine/src/snapshot.rs:295-308 | pruning discards exactly the envelopes below the cutoff |
| `Runs.NewestEnvelopeBootsExactly` | crates/dp-engine/src/recover.rs:178-184 | after any run, with the newest envelope intact, a boot succeeds if and only if the log reaches down to it, which it does unless envelopes disappeared, and no number was lost right after it |
| `Runs.UnburnedNewestEnvelopeBoots` | crates/dp-engine/src/recover.rs:251-309 | if failed appends use up no numbers, the newest intact envelope boots if and only if the log reaches down to it, which it does unless envelopes disappeared |
| `Losses.CrashIsSafeExactly` | crates/dp-event/src/file_store.rs:64-121 | no watermark ever written is above the last stored number if and only if nothing that can happen after crashing here, later crashes being safe, loses an event |
| `Losses.UnsafeCrashLosesEvents` | crates/dp-event/src/file_store.rs:64-121 | after any other crash a stored registration can be lost, whichever written envelope the offending watermark is in |
| `Losses.BurnedNumberIsUnsafe` | crates/dp-engine/src/engine.rs:234-245 | such a state is reached by one failed append followed by a snapshot |
| `Losses.UnwrittenCaptureIsSafe` | crates/dp-engine/src/snapshot.rs:281-284 | crashing between the capture and the write of a snapshot is safe even after a lost number |
| `Losses.BurnedNumberLosesAnEvent` | crates/dp-event/src/file_store.rs:64-121 | a run from the beginning, with nothing corrupted, that ends in a state contradicting its own history |
| `Losses.IntactNewestCanRefuse` | crates/dp-event/src/pg_store.rs:111-128 | a run whose crash is safe and whose only envelope is intact, and which no longer boots because a number was lost after it |
| `Orphans.ClaimsPartitionMatches` | crates/dp-engine/src/recover.rs:524-613 | an auction's matches are its batches' claims and the leftover, each exactly once and in order |
| `Orphans.ReplayRebuildsClaims` | crates/dp-engine/src/recover.rs:524-613 | full replay rebuilds exactly the open batches, each with its claim, and leaves exactly what no batch claimed |
| `Orphans.SnapshotKeepsOrphansExactly` | crates/dp-engine/src/recover.rs:228-309 | after a boot from a snapshot the orphans are all unclaimed matches if and only if none is stranded at or below the watermark |
| `Orphans.ClosedBatchComesBack` | crates/dp-engine/src/batch.rs:215-232 | a snapshot that kept a closed batch brings it back, while a full replay does not |
| `Reaggregation.SecondRecoveryAgrees` | crates/dp-engine/src/recover.rs:311-391 | recovering again over the extended log rebuilds the same state, pending batches and rows included |
| `Reaggregation.AdoptHolds` | crates/dp-engine/src/recover.rs:311-391 | each adopted auction has its orphans pending under its batch, with their rows |
| `Reaggregation.RecoveryIsAFixpointExactly` | crates/dp-engine/src/recover.rs:311-391 | the second recovery has nothing to append if and only if every orphaned auction aggregated |
| `Reaggregation.RestartAfterRecovery` | crates/dp-engine/src/recover.rs:197-391 | a restart after recovery rebuilds exactly the state recovery left and the orphans it could not batch, unless recovery's own event left a hole after the restored envelope, when it refuses |
| `Settlement.ChunksJoin` | crates/dp-engine/src/tick.rs:443-458 | the chunks of a round concatenate back to it, none is empty or too long, all but the last are full |
| `Settlement.ChunkSettles` | crates/dp-engine/src/tick.rs:246-266 | every match of every chunk resolves to one row at the clearing price, with the pair's tokens and two different traders, whatever the pair's status became |
| `Settlement.ChunkedRoundsRebuildExactly` | crates/dp-engine/src/recover.rs:542-570 | a round's batches are rebuilt as submitted if and only if the round fitted one batch |
| `Settlement.LiveRowsExactly` | crates/dp-engine/src/tick.rs:246-266 | rows are built if and only if every match finds both orders and the pair |
| `Settlement.LiveRowsReport` | crates/dp-engine/src/tick.rs:246-266 | otherwise the first match that does not is what is reported, and which of the two was missing |
| `Batches.AggregationsHold` | crates/dp-engine/src/tick.rs:443-458 | the batches of a round concatenate to exactly its matches, in order, each under the round's auction |
| `Batches.AggregationsSettle` | crates/dp-engine/src/tick.rs:246-266 | every match of every batch resolves in that batch's own orders to a row that settles it, at its price and size, between its traders and in the pair's tokens |
| `Rebuilding.ReplayRemembers` | crates/dp-engine/src/recover.rs:398-480 | a lawful replay remembers every order as it was placed and pays every match it has seen |
| `Rebuilding.RecoveredBatchesSettle` | crates/dp-engine/src/recover.rs:542-570 | after recovery from any state that stands for the log so far, every batch submitted since and still open has exactly its claim and one row per match, between the traders of the two placements and in the tokens of the registration |
| `Rebuilding.StandingIsAt` | crates/dp-engine/src/recover.rs:228-309 | an envelope that stands for the log up to its watermark is such a state, and what recovery replays on top of it is the rest of the log |
| `Rebuilding.FullReplaySettles` | crates/dp-engine/src/recover.rs:701-710 | a full replay remembers every placement and gives every open batch exactly its claim with one settling row per match |
| `EventStore.EventStore.Append` | crates/dp-event/src/store.rs:45-51 | events are numbered consecutively and stored together, or none is stored and numbers may be used up |
| `EventStore.EventStore.ReadFrom` | crates/dp-event/src/mem_store.rs:41-52 | the binary search returns exactly the first events above a number |
| `EventStore.EventStore.CompactBefore` | crates/dp-event/src/mem_store.rs:58-65 | exactly the events below the given number are discarded, and a store that missed nothing above its floor still misses nothing |
| `EventStore.EventStore.Reopen` | crates/dp-event/src/file_store.rs:64-104 | numbering resumes after the last event still stored; no number is handed out twice if the last event ever stored is one of them |
| `Engine.PerformedIsTheMove` | crates/dp-engine/src/engine.rs:317-463 | what an engine method performs is the state machine's move of that name |
| `Engine.Engine.RegisterPair` | crates/dp-engine/src/engine.rs:317-349 | registers once, records it, and changes nothing when refused or when the store fails |
| `Engine.Engine.SuspendPair` | crates/dp-engine/src/engine.rs:357-387 | suspends an active pair and logs exactly that, repeats without an event, refuses a delisted one |
| `Engine.Engine.DelistPair` | crates/dp-engine/src/engine.rs:405-463 | cancels exactly the pair's open orders with the delisting, atomically, and drops their secrets |
| `Engine.Engine.PersistOrderPlaced` | crates/dp-engine/src/engine.rs:809-895 | status, replay keys and capacity are decided by the state at the append, which enters the order with its number, keys and secret |
| `Engine.Engine.CheckPlacement` | crates/dp-engine/src/engine.rs:845-872 | the checks under the lock refuse exactly when the specified admission does, with its reason |
| `Engine.Engine.EnsureOrderCapacity` | crates/dp-engine/src/engine.rs:699-720 | refuses exactly at the two limits |
| `Engine.Engine.CancelOrder` | crates/dp-engine/src/engine.rs:897-915 | removes a resting order and its secret, or refuses, or changes nothing when the store fails |
| `Engine.Engine.PruneDeadSecrets` | crates/dp-engine/src/engine.rs:798-802 | keeps exactly the secrets of resting orders |
| `Engine.Engine.FinalizePendingBatch` | crates/dp-engine/src/batch.rs:22-61 | records the batch and makes it pending, or does neither |
| `Engine.Engine.CaptureSnapshotState` | crates/dp-engine/src/engine.rs:234-245 | serializes the whole projection together with the store's last number |
| `Engine.Engine.RestoreFromSerializable` | crates/dp-engine/src/state.rs:287-295 | the projection becomes exactly the serialized one |
| `Ticks.ExpireOrders` | crates/dp-engine/src/tick.rs:278-293 | what has no expiry or has not reached it stays, everything else goes; nothing goes when the store fails |
| `Ticks.ClearPair` | crates/dp-engine/src/tick.rs:311-330 | the auction over the sorted copies is the round defined on the set of resting orders |
| `Ticks.TakeSnapshot` | crates/dp-engine/src/tick.rs:378-389 | holds exactly the matched orders as they were before any fill |
| `Ticks.ChunkRound` | crates/dp-engine/src/tick.rs:443-458 | the loop yields the chunks whose concatenation is proved to be the round |
| `Ticks.RunPair` | crates/dp-engine/src/tick.rs:310-458 | the round over the book as it stands is recorded and applied, and the batches returned hold exactly the matches the log gained, in order, none empty or too large |
| `Ticks.Tick` | crates/dp-engine/src/tick.rs:268-463 | a tick is an expiry and exactly one round per active pair, in name order, each a move of the state machine, whichever appends fail; the batches hold exactly the matches the log gained, each settled by its own batch |
| `Ticks.PrecedesExactly` | crates/dp-engine/src/tick.rs:295-309 | name order: a beginning comes first, otherwise the first difference decides |
| `Replayer.ReplayOne` | crates/dp-engine/src/recover.rs:398-678 | the in-place replay of an event computes its specified effect on state and local maps |
| `Replayer.ReplayTail` | crates/dp-engine/src/recover.rs:291-309 | reading in batches replays every event above a number exactly once, in order |
| `Replayer.RecoveredRows` | crates/dp-engine/src/recover.rs:701-710 | one row for each match that resolves, in order, and none for the others |
| `Replayer.EventLogCoversSeqOne` | crates/dp-engine/src/recover.rs:167-170 | true if and only if the stored log starts with event 1 |
| `Replayer.EventLogContinuousAfter` | crates/dp-engine/src/recover.rs:178-184 | true if and only if no number is missing right after the given one |
| `Replayer.NewestReadable` | crates/dp-engine/src/recover.rs:98-136 | walking down from the newest envelope finds the newest one that opens |
| `Replayer.Recover` | crates/dp-engine/src/recover.rs:197-309 | the first pass leaves exactly the state, the orphans and the placed orders that recovery is specified to rebuild, or its refusal |
| `Replayer.AdoptOrphans` | crates/dp-engine/src/recover.rs:311-391 | orphans are batched auction by auction in ascending order, each event matching the batch made pending; it is done if and only if every aggregated batch could be stored, and then all of them are pending |
| `Replayer.RecoverAndAdopt` | crates/dp-engine/src/recover.rs:197-391 | both passes together: the second one adopts exactly the orphans the first one rebuilt, and the store gains exactly its batch events |
| `EnvelopeFormat.RoundTrip` | crates/dp-engine/src/snapshot.rs:107-168 | decoding an encoded envelope returns the watermark and state that went in |
| `EnvelopeFormat.DecodesOnlyWhatWasEncoded` | crates/dp-engine/src/snapshot.rs:137-168 | any bytes that decode are, byte for byte, an envelope that was encoded, with its watermark and state |
| `EnvelopeFormat.DecodeFailsExactly` | crates/dp-engine/src/snapshot.rs:137-168 | decoding fails if and only if the bytes are too short, or magic, version, length or seal are wrong, and reports the first flaw |
| `EnvelopeFormat.BigEndianIs` | crates/dp-engine/src/snapshot.rs:107-168 | numbers are read with the most significant byte first |
| `Submission.MoveKeepsInv` | crates/dp-engine/src/batch.rs:97-276 | every interleaved step keeps flags held, inputs sound, departures logged and refusals permanent |
| `Submission.OneCallInFlight` | crates/dp-engine/src/batch.rs:97-143 | in every interleaving at most one submitter call per batch is in flight and none carries poisoned inputs |
| `Submission.FlaggedExactlyWhileWorkedOn` | crates/dp-engine/src/batch.rs:97-245 | in every interleaving a pending batch is flagged if and only if a submission works on it or it was refused, so a failed one can always be retried |
| `Submission.LeavesOnlyWhenClosed` | crates/dp-engine/src/batch.rs:215-276 | a batch leaves the pending ones only once an event closing it is in the log |
| `Submission.ConfirmedOnlyIfAccepted` | crates/dp-engine/src/batch.rs:143-232 | in every run each confirmation added to the log is of a batch for which the same submission had called and was answered with acceptance, with no other answer in between |
| `Submission.FailedCallIsRetried` | crates/dp-engine/src/batch.rs:202-208 | after a call that was not accepted, whatever happens in between, the submission clears its batch's flag, counts the attempt, and leaves log and other batches alone |
| `Submission.CallsCarryRealInputs` | crates/dp-engine/src/batch.rs:127-143 | every batch ever sent had been given a payload or has inputs that are not all zero, and every refused one was all zero |
| `Submission.CaptureAgreesExactly` | crates/dp-engine/src/batch.rs:215-232 | a snapshot agrees with the log about open batches if and only if no pending batch is between append and removal of its closing or was restored closed |
| `Submission.CaptureCanDisagree` | crates/dp-engine/src/batch.rs:215-232 | a five-step run after which a snapshot would keep a closed batch |
| `Submission.RefusedStaysRefused` | crates/dp-engine/src/batch.rs:127-143 | along every continuation no submitter call carries a batch once refused for its inputs |
| `Submission.PayloadCanComeTooLate` | crates/dp-engine/src/batch.rs:127-143 | a four-step run after which a refused batch has its payload and is still flagged with nobody working on it |
| `StreamLimiter.StepKeepsInv` | crates/dp-api/src/rest.rs:67-106 | every step of every thread keeps holders anchored to the map's semaphore, although entries are removed on counts read at different moments |
| `StreamLimiter.NeverTooManyStreams` | crates/dp-api/src/rest.rs:67-106 | in every interleaving no key has more live permits than allowed |
| `StreamLimiter.DeniedExactlyWhenFull` | crates/dp-api/src/rest.rs:67-86 | an attempt is denied if and only if its key has the maximum of live permits |
| `StreamLimiter.DropRemovesExactlyWhenLast` | crates/dp-api/src/rest.rs:96-106 | the drop check removes an entry if and only if nobody else refers to its semaphore |
| `StreamLimiter.SweepRemovesExactlyTheUnheld` | crates/dp-api/src/rest.rs:70-72 | the sweep removes an entry it recounts if and only if no thread refers to its semaphore |
| `StreamLimiter.OneSemaphorePerKey` | crates/dp-api/src/rest.rs:96-106 | threads not past their drop check share a semaphore if and only if they share a key |
| `TokenBucket.LevelIsTightestWindow` | crates/dp-api/src/ratelimit.rs:78-99 | the level is the least room left by any window of past requests, and some window attains it |
| `TokenBucket.AllowedExactlyWithinWindows` | crates/dp-api/src/ratelimit.rs:78-99 | a request is allowed if and only if it fits every window starting at an earlier request or itself |
| `TokenBucket.WindowBound` | crates/dp-api/src/ratelimit.rs:78-99 | any stretch of time grants at most the burst plus what the stretch brings |
| `RateLimiter.RateLimiter.Allow` | crates/dp-api/src/ratelimit.rs:78-99 | refills and spends exactly the client's bucket, leaving the others alone |
| `RateLimiter.RateLimiter.EvictStale` | crates/dp-api/src/ratelimit.rs:101-108 | keeps exactly the buckets idle for no longer than the limit, unchanged |
| `RateLimiter.EvictionChangesNothing` | crates/dp-api/src/ratelimit.rs:78-108 | if idle buckets refill in time, eviction at arbitrary moments changes no decision of any run |
| `RateLimiter.LimiterIsSlidingWindow` | crates/dp-api/src/ratelimit.rs:78-108 | the evicting limiter allows a request if and only if it fits every window of the same client |
| `Eviction.EvictionIsInvisibleExactly` | crates/dp-api/src/ratelimit.rs:78-108 | eviction is invisible in every run if and only if idle buckets refill in time or nothing is ever allowed |
| `Eviction.EvictionIsInvisibleAtRate` | crates/dp-api/src/ratelimit.rs:78-108 | in terms of a rate: if and only if rate times idle limit is at least the burst |

## Assumptions

- A failed append leaves none of its events behind. A file store that fails between flush and sync, or a database commit that
  times out, may leave them. So may a failed write, flush or serialisation (`crates/dp-event/src/file_store.rs:108-121`): the bytes
  it leaves in the buffered writer reach the file with the next append. Those cases are not part of this model.
- An engine that is shown no envelope is started over a compacted log only if what is left makes up for what was compacted.
- Serialization and deserialization of states are inverse, and digests, nullifiers and nonces are compared as given.
- Order, auction and batch identifiers are fresh, as random identifiers are.
- Pairs are registered with status active and a whole number of milliseconds, as the callers of `register_pair_with_event` do.
- Times never go backwards in the limiter, whose arithmetic is over reals rather than floating point.

## Left out

- Cryptography and proofs: encryption, commitments, folding and verification are abstract functions or inputs.
- Building of batch witnesses and the per-pair folding rounds: a cancel can remove a secret first, and folding is external.
- Equality of recovered and live pending batches: it does not hold; the exact conditions are under Findings.
- `register_pair_without_event` and default pairs seeded for logs older than pair events: replay models the seeding, no theorem relies on it.
- Retry scheduling (`compute_backoff`, `next_attempt`): it decides when a submission is tried, not what it may do.
- Metrics, broadcasting, clocks and the scheduling of ticks and snapshots: inputs or nothing.
- HTTP and gRPC handlers, authentication, configuration, key sources and the front end.
- Postgres specifics of the stores: the event store is modelled by the contract its memory and file versions share.
- Engine.Engine.CaptureSnapshotState: the lock is not modelled inside the class; that off-lock appends can come between is modelled in `System` and `Submission`.
- OrderBook.OrderBook.InsertOrder: asks that an identifier already resting is filed under the same pair and side, which fresh identifiers give.
- Engine.Engine.PersistOrderPlaced: asks that the order's identifier is not resting, which fresh identifiers give.
- Encoding.MidpointStaysInRange: rounds at 28 decimals as every amount does here; an amount whose digits need more than 96 bits at that scale is rounded earlier, which cannot happen to encodable prices.
- Replayer.ReplayOne: asks that a placement's identifier is not resting, which fresh identifiers give.
- Replayer.ReplayTail: asks the same of every placement it replays.
- RateLimiter.RateLimiter.Allow: asks for a refill that is proportional to time and for a burst and idle limit that are not negative.
- Replayer.Recover: asks for stores as every run leaves them when the process is down; what recovery does with a log no run produces is not stated.
- Replayer.RecoverAndAdopt: asks the same, and that the identifiers of the new batches are fresh.
- Ticks.ExpireOrders: says which orders stay for a book not numbered above its store, which every run keeps; above it the dedupe guard would skip the expiries.
- Outcomes.DelistedIs: asks the same of the book.
- Outcomes.CancelledIs: asks the same of the book.
- Outcomes.ExpiredIs: asks the same of the book.
