# Launchtap: a Dafny model of the indexer, the bonding curve and four small cores

The project models the parts of Launchtap whose correctness spans many calls, and proves what
they are for.

**The bonding curve** (`Uint256`, `Curve`, `CurveFees`, `CurveQuotes`, `CurveMeaning`, `CurveRuns`,
`CurveTrades`, `CurveVectors`). The integer constant-product market of the Go mirror: floored fees, reserves
rounded up, a clipped last fill and a one-way phase change, with every 256-bit check. `Buy` and
`Sell` follow the code check by check. `BuyOutcome` and `SellOutcome` are the same quotes with
only the checks that can fail, built on closed forms (`IdealFill`, `IdealSale`) whose meaning
is proved; the quotes equal them on every state of the curve phase. `CurveMeaning` says the
same in plain arithmetic. Runs are sequences of
successful trades from the launch state. The published parameters and two
published quotes witness that the assumptions can be met.

**The indexer** (`Chain`, `Discovery`, `Ledger`, `Storage`, `Indexer`, `LedgerRuns`,
`LedgerHistory`, `LedgerConvergence`, `LedgerWitness`). A ledger of blocks, events and three watermarks follows
a remote chain.
- The hash of a header is symbolic: a constructor applied to the header. So one hash belongs
  to one header, and with it to one parent and one set of logs.
- `Chain.Provider` has two modes. Without a view every answer is arbitrary, call by call. With
  a view every answer comes from one chain, although any call may still fail and any query may
  be found too large.
- A provider or a store may be *reliable*: then it does not fail. What a step against one chain
  can still fail by is said of the logs of the next segment (`Indexer.Engine.Refused`,
  `Indexer.Engine.Blocked`).
- `Storage.Store` holds the committed database and the working copy of the open transaction. A
  commit may succeed, roll back, or stay unacknowledged with either result.
- `Indexer.Engine.Step` and everything below it are methods that follow the code. A step
  reports, as a ghost result, the one *effect* it leaves committed: nothing, a chunk, a recorded
  reorg, or a completed recovery. A crash between two transactions is one of these effects.
- Runs are sequences of effects. Safety holds for all valid effects, hence for every provider.
  History independence and convergence are about effects of steps that each saw one chain.

**Four small cores.** The event hub (`Realtime`), the write rate limiter (`RateLimit`), the
token aggregate (`TokenStats`) and the decimal parser and printer (`Amounts`).

## Findings

- A recovery writes the observed watermark with the zero time, because FindCommonAncestor
  returns no block time (`adapter.go:562`, `reorg.go:137`). So "every watermark is a stored
  block" holds of the number and the hash always, and of the time exactly when the last effect
  that moved the mark was not a recovery (`LedgerRuns.ObservedTimeIsRowTime`). A run in which it
  fails is `LedgerWitness.ObservedTimeGoesWrong`.
- The rate limiter takes a window that starts at the zero time for an unset one, so calls at
  that instant are never refused (`RateLimit.ZeroClockNeverLimits`). The bound of 2 * maximum - 1
  allowed calls per window length therefore holds, for every clock that does not run backwards,
  exactly in the spans that do not contain the zero time (`RateLimit.BurstBoundExactly`), and in
  all spans exactly for clocks that never show it (`RateLimit.ClockMeetsBoundExactly`). It is
  reached (`RateLimit.BoundIsReached`).
- A printed negative amount does not parse: print and parse is a round trip exactly for
  non-negative values (`Amounts.RoundTrip`).
- recoverReorg does not check its ancestor again in the second transaction. With a single
  writer it need not: the second search gives the recorded ancestor (an assertion of
  `Indexer.Engine.RollBack`). The missing-promotion-block error and the refusal of an ancestor
  below the safe mark cannot occur. "No observed tip" is not excluded, but only before anything
  is observed, with a chunk size of at least two, and never against one chain
  (`Indexer.Engine.Step`).
- In the curve phase the internal-invariant error, every division by zero, every subtraction
  underflow and the zero-output check after fees of a sale are unreachable.

## Model

| member | source | states |
|---|---|---|
| Uint256.MaxUint256IsTwoTo256MinusOne | backend/internal/curve/math.go:10 | the bound of every check is 2^256 - 1 |
| Uint256.FloorIsGreatest | backend/internal/curve/math.go:526-536 | the floor quotient is the greatest q with q * d <= a |
| Uint256.CeilIsLeast | backend/internal/curve/math.go:538-547 | the quotient computed as (n - 1) / d + 1 is the least q with n <= q * d |
| Curve.FirstInvalid | backend/internal/curve/math.go:579-618 | validation passes exactly when every field is present and within 256 bits |
| Curve.ValidateFields | backend/internal/curve/math.go:579-618 | the validation loop reports the first invalid field |
| Curve.ValidateState | backend/internal/curve/math.go:602-618 | a state passes exactly when its four amounts are uint256 |
| Curve.ValidateParameters | backend/internal/curve/math.go:579-600 | parameters pass exactly when their nine amounts are uint256 |
| Curve.BoundaryChecks | backend/internal/curve/math.go:121-135 | the two rounded-up divisions hit the final reserves exactly when three product inequalities put those reserves on the curve rounded up from either side |
| Curve.BuildParametersAcceptsWellFormed | backend/internal/curve/math.go:73-149 | construction accepts exactly the parameter sets with a consistent supply split, positive reserves, valid rates and a two-sided boundary; it never divides by zero |
| Curve.CopyFields | backend/internal/curve/math.go:60-70 | the copying loop stops at the first invalid amount and otherwise keeps every value |
| Curve.NewParameters | backend/internal/curve/math.go:38-150 | fails on the first invalid amount; whatever it returns is well formed |
| CurveFees.NetReaches | backend/internal/curve/math.go:478-502 | a gross amount nets at least n exactly when gross * (10000 - fee) > (n - 1) * 10000 |
| CurveFees.NetMonotone | backend/internal/curve/math.go:478-502 | more gross never nets less |
| CurveFees.LeastGrossIsLeast | backend/internal/curve/math.go:504-524 | the closed form is the least gross amount that nets at least the target, and it nets exactly the target |
| CurveFees.ExactGrossIsLeast | backend/internal/curve/math.go:504-524 | exactGrossForNet returns that least amount and fails exactly on a zero net, an invalid rate or a result beyond 256 bits |
| CurveFees.SplitFeesSplits | backend/internal/curve/math.go:478-502 | the fee is the rate of the amount, the protocol has its share of the fee, each rounded down, and the creator the rest, without remainder |
| CurveFees.FeeOfSum | backend/internal/curve/math.go:478-502 | splitting an amount in two lowers the total fee by at most one unit |
| CurveQuotes.TightIsZeroSlack | backend/internal/curve/math.go:538-547 | a reserve is the least possible one exactly when its slack over the rounded-up quotient is zero |
| CurveQuotes.CandidateToken | backend/internal/curve/math.go:279-293 | the token reserve for a larger ETH reserve: never above the old one, above the final one before the boundary, equal to it at the boundary |
| CurveQuotes.IdealFillProperties | backend/internal/curve/math.go:295-336 | a fill uses or refunds everything supplied, conserves ETH, stays on the curve rounded up, graduates exactly at the final reserves, and when clipped uses the least sufficient gross and refunds a positive rest |
| CurveQuotes.ClippedFillRefunds | backend/internal/curve/math.go:300-326 | the clipped gross nets exactly what is missing, no smaller gross does, and it is below the supplied amount |
| CurveQuotes.ClippedFillSucceeds | backend/internal/curve/math.go:300-326 | the clip branch never fails and yields the final reserves |
| CurveQuotes.BuyOnCurve | backend/internal/curve/math.go:253-366 | on every curve-phase state and for every input Buy fails only by a bad amount, zero input, zero output, or overflow of the ETH reserve or a fee total, and otherwise is the ideal fill |
| CurveQuotes.SoldETH | backend/internal/curve/math.go:394-408 | the ETH reserve after a sale lies between launch and the old one, and is the launch one exactly when all tokens are back |
| CurveQuotes.IdealSaleProperties | backend/internal/curve/math.go:402-438 | what leaves the reserve is the payout plus the fees; a sale that moves the reserve pays something; the reserve left is the least possible |
| CurveQuotes.SellOnCurve | backend/internal/curve/math.go:369-446 | on every curve-phase state and for every input Sell fails only by a bad amount, zero input, overselling, zero output or a fee-total overflow, and otherwise is the ideal sale |
| CurveMeaning.ParametersAcceptedExactly | backend/internal/curve/math.go:73-149 | the conditions on eight amounts under which a parameter set is accepted, and no others |
| CurveMeaning.BuyFees | backend/internal/curve/math.go:336-356 | of every successful buy: the fee is the trade rate of the gross used, the protocol's part its share of that fee, both rounded down, and both are added to the totals |
| CurveMeaning.SellFees | backend/internal/curve/math.go:410-438 | the same of every successful sale, on the gross that leaves the reserve, of which the rest is paid out |
| CurveMeaning.BuySpelledOut | backend/internal/curve/math.go:253-366 | on a curve-phase state, every field of the quote of any buy, or its error, from the amounts alone |
| CurveMeaning.SellSpelledOut | backend/internal/curve/math.go:369-446 | the same for any sale |
| CurveMeaning.SpotPriceIsFloor | backend/internal/curve/math.go:448-454 | the spot price is the reserve ratio in units of 10^-18, rounded down |
| CurveRuns.BuyKeepsInvariant | backend/internal/curve/math.go:331-356 | a buy keeps the state invariant, leaves the least token reserve, and books exactly its fees |
| CurveRuns.SellKeepsInvariant | backend/internal/curve/math.go:424-438 | a sale keeps the state invariant, leaves the least ETH reserve, and books exactly its fees |
| CurveRuns.RunKeepsInvariant | backend/internal/curve/math.go:253-446 | every run of successful trades keeps the state invariant and the books balanced |
| CurveRuns.ReachableStates | backend/internal/curve/math.go:253-476 | every reachable state has virtualETH * virtualToken >= invariant and reserves within bounds, and is graduated exactly when they are the final ones, with real curve ETH exactly graduationETH and tokens sold exactly curveTokens |
| CurveRuns.RunConserves | backend/internal/curve/math.go:253-476 | over any run ETH in minus ETH out is real curve ETH plus fees, and tokens out minus tokens back is TokensSold; the reserves are the launch ones exactly when all tokens are back |
| CurveRuns.SellingEverythingBack | backend/internal/curve/math.go:369-446 | selling all tokens back restores exactly the launch reserves, unless a fee total overflows |
| CurveRuns.ReachableErrors | backend/internal/curve/math.go:253-446 | in every reachable state each quote has exactly one of the listed outcomes; after graduation it is the wrong phase |
| CurveRuns.PriceFollowsTrades | backend/internal/curve/math.go:448-454 | the spot price never falls on a buy and never rises on a sale |
| CurveTrades.SalePiecesAddUp | backend/internal/curve/math.go:394-420 | n sales end at the reserves of their total, with fees at most n - 1 below the fee on it |
| CurveTrades.SplitSale | backend/internal/curve/math.go:369-446 | selling in n pieces against selling once: equal reserves, total fees at most n - 1 lower; the single sale can only fail by a fee overflow |
| CurveTrades.BuyPiecesAddUp | backend/internal/curve/math.go:271-336 | n buys end with an ETH reserve between that of their total and n - 1 above it |
| CurveTrades.LargerBuyFails | backend/internal/curve/math.go:253-366 | the outcome of a buy of more than one that succeeds: too large an amount, an overflow, or the ideal fill |
| CurveTrades.SplitBuy | backend/internal/curve/math.go:253-366 | buying in n pieces against buying once, clipped or not: an ETH reserve at most n - 1 higher and never lower; the single buy fails exactly when the sum exceeds 256 bits or the ETH reserve or a fee total overflows |
| CurveTrades.BuyThenSell | backend/internal/curve/math.go:271-297 | buying and selling the output back returns at most the effective ETH plus the slack of the state bought from |
| CurveTrades.SellThenBuy | backend/internal/curve/math.go:394-420 | selling and buying with the proceeds returns at most the tokens sold plus the token slack |
| CurveTrades.ZeroSlackStates | backend/internal/curve/math.go:538-547 | the ETH slack is zero at launch and after any sale, the token slack at launch and after any buy |
| CurveVectors.VectorParameters | contracts/vectors/v1/curve-v1.json:1 | the published parameters are accepted and their launch state is on the curve, so the assumptions of the curve results are met |
| CurveVectors.MidCurveState | contracts/vectors/v1/curve-v1.json:1 | so is the state that the mid-curve vectors start from |
| CurveVectors.BuyFinalRefundAndGraduation | contracts/vectors/v1/curve-v1.json:1 | the published buy that graduates and refunds the rest |
| CurveVectors.SellNormal | contracts/vectors/v1/curve-v1.json:1 | the published sale in mid-curve |
| Discovery.InsertKeepsOrder | backend/internal/chain/discovery.go:264-284 | sorting puts logs in the order of blocks, then of transactions, then of logs |
| Discovery.DeduplicateAndSort | backend/internal/chain/discovery.go:248-286 | each place once, by block, transaction and log index, nothing lost; an error exactly when two logs at one place differ in more than the removed flag |
| Discovery.WantedSpelledOut | backend/internal/chain/discovery.go:59-133 | the logs a segment calls for, event by event: factory events by the factory, curve, token and pair events by a contract that is known or launched at or before the log |
| Discovery.Bisection | backend/internal/chain/discovery.go:184-189 | on wrapping uint64 ranges both halves are smaller, and on a proper range they partition it |
| Discovery.LaunchIndexMeaning | backend/internal/chain/discovery.go:75-102 | the emitters indexed under a block are those launched in it |
| Discovery.AllEmittersMeaning | backend/internal/chain/discovery.go:91-93 | the resulting emitters are the known ones and all launched ones |
| Discovery.SortedIsWanted | backend/internal/chain/discovery.go:128-132 | deduplication keeps exactly the wanted logs, and fails only if the chain itself repeats a coordinate |
| Discovery.Discoverer.FetchRange | backend/internal/chain/discovery.go:169-194 | bisection terminates, returns exactly the matching logs, and reports capacity only for a single block that is too large |
| Discovery.Discoverer.Fetch | backend/internal/chain/discovery.go:135-167 | batching changes nothing: exactly the matching logs of all addresses; foreign emitters and topics are refused |
| Discovery.Discoverer.AddressesFor | backend/internal/chain/discovery.go:225-240 | the addresses of a kind, in any order |
| Discovery.Discoverer.FetchKinds | backend/internal/chain/discovery.go:111-126 | exactly the logs that curve, token and pair emitters want |
| Discovery.Discoverer.IndexLaunches | backend/internal/chain/discovery.go:76-102 | the launches among the factory logs, by block and in total; fails to decode exactly on a factory log that does not decode |
| Discovery.Discoverer.FetchLaunched | backend/internal/chain/discovery.go:104-118 | exactly the logs of new contracts from their launch block on |
| Discovery.Discoverer.Gather | backend/internal/chain/discovery.go:69-126 | the three fetches bring in exactly the wanted logs, possibly repeated; failures are traced to the transport, a too large block, or a factory log of the segment |
| Discovery.Discoverer.Discover | backend/internal/chain/discovery.go:59-133 | refines the naive filter: factory logs, known-emitter logs and new-emitter logs from their launch block on, each once, by block, then transaction, then log index. On one chain it fails only by transport, by a single block whose query is too large, by a factory log of the range that does not decode or whose pair is refused, or by a chain that repeats a coordinate; it never succeeds over an undecodable factory log |
| Discovery.Discoverer.LaunchedLater | backend/internal/chain/discovery.go:104-118 | the per-block refetch covers exactly the logs at or after a launch that wants them |
| Storage.AllTablesCleared | backend/internal/store/postgres/adapter.go:580-663 | the listed deletes reach every event table, so no event above the ancestor is left |
| Storage.Store.Commit | backend/internal/store/postgres/indexer_store.go:28-44 | a transaction is all or nothing; an unacknowledged one is either |
| Storage.Store.WriteState | backend/internal/store/postgres/indexer_store.go:75-91 | writes the three marks, or nothing without an observed one |
| Storage.Store.ReadBlock | backend/internal/store/postgres/indexer_store.go:92-101 | the row of a number, if stored |
| Storage.Store.UpsertIndexedBlock | backend/internal/store/postgres/adapter.go:450-481 | conflicts exactly when the number holds another block or the hash sits at another number |
| Storage.Store.IngestEvent | backend/internal/store/postgres/adapter.go:242-258 | inserts once, ignores an equal repetition, refuses another payload under the same key |
| Storage.Store.PromoteBlocks | backend/internal/store/postgres/indexer_store.go:102-114 | raises the finality of the rows between the old and the new marks |
| Storage.Store.FindCommonAncestor | backend/internal/store/postgres/queries/reorg.sql:1-6 | the highest stored block among the candidates, if any |
| Storage.Store.DeleteCanonicalAbove | backend/internal/store/postgres/adapter.go:580-663 | clearing table by table leaves exactly the events and rows up to the ancestor |
| Storage.Store.CompleteReorg | backend/internal/store/postgres/queries/reorg.sql:73-76 | completes an open record and nothing else |
| Ledger.AppendRows | backend/internal/indexer/engine.go:117-140 | a linked chunk extends the contiguous, parent-linked rows and touches no old one |
| Ledger.PromotedMark | backend/internal/indexer/engine.go:189-223 | a watermark only rises, stays on a stored block at or below the observed one, and reaches the processed part of the head |
| Ledger.PromotedRowsMeaning | backend/internal/store/postgres/queries/blocks.sql:26-33 | promotion changes nothing but finality, and never lowers a finalized row |
| Ledger.IngestMovesMarks | backend/internal/indexer/engine.go:189-223 | after a chunk both marks have moved to the reported head, or to the observed block if lower, where this is a stored block above them, and have stayed otherwise |
| Ledger.IngestedStatuses | backend/internal/indexer/engine.go:224-241 | after a chunk the finality column of every row is what the watermarks say |
| Ledger.IngestedEvents | backend/internal/indexer/engine.go:156-169 | after a chunk every event belongs to a stored block |
| Ledger.EffectKeepsInvariant | backend/internal/indexer/engine.go:224-241 | every effect keeps contiguity, parent links, ordered watermarks on stored blocks, matching finality and housed events |
| Ledger.RecoverKeepsInvariant | backend/internal/indexer/reorg.go:107-142 | so does a recovery |
| Indexer.CandidatesDescend | backend/internal/indexer/reorg.go:57-63 | the candidates are the parent-hash chain of the tip |
| Indexer.HighestCandidateIsFork | backend/internal/indexer/reorg.go:77-87 | the highest stored candidate is the true fork, at or above the safe mark |
| Indexer.SpanOnChain | backend/internal/indexer/engine.go:85-106 | a chain that holds the observed block holds every stored block |
| Indexer.RowsFollowChain | backend/internal/indexer/engine.go:117-140 | after a chunk of that chain it still does, so no promotion check can fail |
| Indexer.PlannedRows | backend/internal/indexer/engine.go:195-213 | every block that a promotion may ask for is in the chunk or stored |
| Indexer.DecodedIsComplete | backend/internal/indexer/engine.go:156-169 | decoding the wanted logs gives exactly the wanted events |
| Indexer.ObservedCoversSafe | backend/internal/indexer/engine.go:85-106 | agreement at the observed mark implies agreement at the safe one |
| Indexer.ContinuableSpelledOut | backend/internal/indexer/reorg.go:28-41 | a step can continue exactly when nothing is observed, or the chain reaches the observed height and holds a stored block at or above the safe mark and within the search depth |
| Indexer.SafeBlockSuffices | backend/internal/indexer/reorg.go:32-41 | agreement at the safe block is enough if the search is deeper than what lies above it |
| Indexer.SettledSpelledOut | backend/internal/indexer/engine.go:85-140 | what a step calls for: on the chain the next blocks up to the chunk size with the reported heads, off it a recovery from the chain's block at the observed height |
| Indexer.ConflictIsClash | backend/internal/store/postgres/adapter.go:242-258 | an event conflict is two different events of one entity with the same transaction and log index |
| Indexer.Engine.CollectCandidates | backend/internal/indexer/reorg.go:39-70 | the countdown yields a parent-linked chain from the unchanged tip, as long as the floor and the search depth allow |
| Indexer.Engine.RecordFork | backend/internal/indexer/reorg.go:71-106 | whatever the provider answers, only a true fork is recorded; the errors say what was missing |
| Indexer.Engine.RollBack | backend/internal/indexer/reorg.go:107-144 | the second search gives the recorded ancestor; the transaction deletes above it and lowers the mark, or changes nothing |
| Indexer.Engine.CandidatesMeetChain | backend/internal/indexer/reorg.go:39-80 | against one chain, a stored candidate exists exactly when the chains meet inside the window |
| Indexer.Engine.RecoverReorg | backend/internal/indexer/reorg.go:28-146 | commits nothing but a true fork; against one chain off which the observed block lies, it fails only by an outage if some stored block from the safe one up and within the search depth is on the chain, and changes nothing if none is |
| Indexer.Engine.CheckSaved | backend/internal/indexer/engine.go:85-106 | against one chain: consistent, a divergence of the observed mark alone, or a safe violation exactly when the safe mark disagrees |
| Indexer.Engine.BuildChunk | backend/internal/indexer/engine.go:107-140 | the chunk is linked to the observed block, bounded by the chunk size, and against one chain its next segment |
| Indexer.Engine.BuildEmitters | backend/internal/indexer/engine.go:143-151 | the emitters of the identities, or an error exactly when one has another engine version |
| Indexer.Engine.DiscoverChunk | backend/internal/indexer/engine.go:143-155 | against one chain the wanted logs of the chunk, or the reason why they are refused |
| Indexer.Engine.GatherEvents | backend/internal/indexer/engine.go:152-176 | events lie in the chunk's blocks, whose last one the provider still serves; against one chain they are exactly the wanted ones, and failing is an outage or a refused log |
| Indexer.Engine.PromotionTarget | backend/internal/indexer/engine.go:195-222 | the promoted mark, which the provider and the reported head agree with, and when its checks fail |
| Indexer.Engine.PlanPromotions | backend/internal/indexer/engine.go:189-223 | no promotion block is ever missing |
| Indexer.Engine.CommitChunk | backend/internal/indexer/engine.go:224-245 | rows, events, finality and watermarks change together or not at all |
| Indexer.Engine.UpsertBlocks | backend/internal/indexer/engine.go:225-233 | on a valid ledger neither conflict nor unchanged row occurs |
| Indexer.Engine.IngestChunk | backend/internal/indexer/engine.go:141-245 | the effect is a valid ingest or nothing; both marks move to the processed part of their heads; against one chain it is complete and fails only by an outage, a refused log or two events with one key |
| Indexer.Engine.Step | backend/internal/indexer/engine.go:47-246 | keeps the ledger valid and commits one valid effect whatever the provider answers and wherever it stops. Against one chain every commit, acknowledged or not, is exactly the next chunk or the due recovery, and a completed step has made it. If the chain holds a stored block from the safe one up and within the search depth, a step fails only by an outage or by the logs of the next segment; if not, it changes nothing |
| Indexer.Engine.Run | backend/internal/indexer/engine.go:252-269 | the whole loop is a run of valid effects; against one chain it is complete, every commit is the one called for, and all steps but a failing last one are completed |
| LedgerRuns.RunKeepsInvariant | backend/internal/indexer/engine.go:47-246 | the ledger invariant holds after every run from a valid ledger |
| LedgerRuns.ReachableInvariant | backend/internal/indexer/engine.go:47-246 | and after every run from the empty one |
| LedgerRuns.InvariantSpelledOut | backend/internal/indexer/engine.go:107-245 | what the invariant says field by field: rows, parents, marks, finality of every row, and events |
| LedgerRuns.IngestSpelledOut | backend/internal/indexer/engine.go:224-245 | a chunk becomes the top of the rows and the observed mark, its events are added, nothing stored is lost |
| LedgerRuns.MarksSpelledOut | backend/internal/indexer/engine.go:189-223 | the safe and finalized marks after a chunk, from the reported heads, the old marks and the observed block |
| LedgerRuns.RecoverySpelledOut | backend/internal/indexer/reorg.go:99-144 | what both transactions of a recovery write: the incident with its depth, open and then completed, the cut above the ancestor, and no change of the safe and finalized marks |
| LedgerRuns.EffectPreserves | backend/internal/indexer/engine.go:195-198 | one effect: marks only rise, and nothing at or below the safe mark is deleted, replaced or added |
| LedgerRuns.RunPreserves | backend/internal/indexer/reorg.go:32-38 | the same from any moment of any run to its end |
| LedgerRuns.RecoveryFindsFork | backend/internal/indexer/reorg.go:39-87 | at every height that both chains reach, they agree exactly up to the recorded ancestor |
| LedgerRuns.RecoveredIsCommonPart | backend/internal/indexer/reorg.go:107-142 | a recovery keeps exactly the rows that the detected tip descends from |
| LedgerRuns.ObservedTimeIsRowTime | backend/internal/store/postgres/adapter.go:553-563 | the observed mark has its block's time exactly when a recovery did not move it last |
| LedgerHistory.DiscoveryComposes | backend/internal/chain/discovery.go:59-133 | one pass over two adjacent segments wants what two passes want, the second with the emitters of the first |
| LedgerHistory.KnownAreLaunched | backend/internal/store/postgres/indexer_store.go:115-125 | the stored identities are the contracts launched on the stored chain |
| LedgerHistory.IngestStaysIndexed | backend/internal/indexer/engine.go:107-178 | a complete chunk keeps the ledger fully indexed |
| LedgerHistory.RecoverStaysIndexed | backend/internal/indexer/reorg.go:107-144 | a recovery keeps the ledger fully indexed |
| LedgerHistory.RunsCompose | backend/internal/indexer/engine.go:252-269 | runs against different chains concatenate |
| LedgerHistory.RunIsFullyIndexed | backend/internal/indexer/engine.go:107-178 | after any run of chunks and recoveries the events are exactly those that one pass over the stored chain wants |
| LedgerHistory.SameTopSameHeaders | backend/internal/indexer/engine.go:129-137 | the observed hash determines the stored chain |
| LedgerHistory.HistoryIndependence | backend/internal/indexer/engine.go:107-178 | two runs that end at the same observed block hold the same blocks and events, whatever their chunk sizes, search depths and forks |
| LedgerHistory.EventsEqualOneDiscovery | backend/internal/chain/discovery.go:59-133 | the events are those of the logs that a single Discover from the start block to the observed one returns |
| LedgerConvergence.ChunksIsCeiling | backend/internal/indexer/engine.go:111-114 | the number of chunks is the ceiling of blocks over chunk size |
| LedgerConvergence.RecoveryReachesFork | backend/internal/indexer/reorg.go:39-67 | a recovery from the chain's block at the observed height goes to the highest common block |
| LedgerConvergence.StepProgress | backend/internal/indexer/engine.go:85-140 | every completed step against one chain takes exactly one off the steps left |
| LedgerConvergence.Converges | backend/internal/indexer/engine.go:85-140 | whichever steps fail, after k commits against one chain k steps fewer are left, and none left is the tip: one recovery if due, then the chunks above the fork; later steps may fail only for environmental reasons if the first may |
| LedgerConvergence.CompletedStepsConverge | backend/internal/indexer/engine.go:85-140 | the tip is reached exactly after as many completed steps as the measure says |
| LedgerConvergence.StaysPut | backend/internal/indexer/engine.go:224-245 | an effect without a commit changes neither the measure nor whether the run can continue |
| LedgerConvergence.OneRecovery | backend/internal/indexer/reorg.go:28-67 | only the first commit against one chain can be a recovery, and is one exactly when the observed block is off the chain |
| LedgerConvergence.TipIsReached | backend/internal/indexer/engine.go:85-140 | the observed block is the tip once the commits, without one if a recovery was due, hold the blocks above a common one |
| LedgerConvergence.MarksFollowHeads | backend/internal/indexer/engine.go:189-223 | over any run against one chain the marks never fall, never pass the reported heads when they move, and reach them at the tip |
| LedgerConvergence.ConvergedLedger | backend/internal/indexer/engine.go:85-245 | at the tip the rows are the chain's blocks, the marks its safe and finalized blocks unless they were above them or these lie below the start block, and a ledger that had no marks holds the reported finality |
| LedgerWitness.EveryChainCanBeServed | backend/internal/indexer/engine.go:66-89 | every valid chain, with any ordered heads and any too large queries, has a view that serves it |
| LedgerWitness.RecoveryIsReachable | backend/internal/indexer/reorg.go:28-146 | a faithful run that ingests, recovers from a reorg and ingests the new branch |
| LedgerWitness.ObservedTimeGoesWrong | backend/internal/store/postgres/adapter.go:562 | a run after which the observed mark has the zero time and is not its stored block |
| LedgerWitness.ReorgIsFollowed | backend/internal/indexer/reorg.go:39-67 | that recovery and chunk are what the measure calls for, and reach the tip |
| Realtime.PublicationAccounted | backend/internal/realtime/hub.go:79-92 | a publication keeps every subscriber's account straight: room gets the event, full ones end just before it |
| Realtime.IsPublished | backend/internal/realtime/hub.go:79-92 | of each subscriber: with room the event is appended, without it is evicted with its buffer left to read; all else stays and no buffer loses anything |
| Realtime.OpenIsLive | backend/internal/realtime/hub.go:82-91 | a channel is open exactly while its subscriber is live, so no channel is closed twice |
| Realtime.Hub.constructor | backend/internal/realtime/hub.go:55-63 | an empty hub, with the defaults for non-positive limits |
| Realtime.Hub.Subscribe | backend/internal/realtime/hub.go:65-77 | a fresh id and an empty channel, or refusal exactly at capacity |
| Realtime.Hub.Offer | backend/internal/realtime/hub.go:83-90 | sends, or evicts exactly the full subscriber, with the counters |
| Realtime.Hub.Publish | backend/internal/realtime/hub.go:79-92 | in any iteration order, exactly the full subscribers are evicted, what they had buffered stays to be read, and all others get the event |
| Realtime.Hub.Receive | backend/internal/realtime/hub.go:37-41 | events arrive in order, also from a closed channel until it is drained |
| Realtime.Hub.Remove | backend/internal/realtime/hub.go:94-104 | ends a live subscription; an ended one is left alone |
| Realtime.Subscription.Close | backend/internal/realtime/hub.go:43-43 | closing twice is closing once |
| Realtime.Hub.LiveHasEverything | backend/internal/realtime/hub.go:79-92 | received plus buffered is exactly what was published since joining |
| Realtime.Hub.EvictedHasPrefix | backend/internal/realtime/hub.go:85-90 | an evicted subscriber has a gap-free prefix |
| Realtime.Hub.IdsAddUp | backend/internal/realtime/hub.go:71-75 | ids issued are live, evicted or closed ones, and active is the number of subscribers, at most the maximum |
| RateLimit.SubjectLimiter.Allow | backend/internal/apiserver/metadata_routes.go:329-353 | a new subject is refused exactly when 10,000 stored windows are still running, another exactly when its window runs and is used up; the new window, and that only expired ones of others are dropped |
| RateLimit.SubjectLimiter.Purge | backend/internal/apiserver/metadata_routes.go:334-338 | what is left runs, and what is deleted has run out |
| RateLimit.EntriesBounded | backend/internal/apiserver/metadata_routes.go:333-342 | the map never exceeds its cap |
| RateLimit.PurgeForgetsOnlyExpired | backend/internal/apiserver/metadata_routes.go:333-338 | a subject that is not stored never had a window, or one at the zero time, or an expired one |
| RateLimit.DecisionIgnoresPurging | backend/internal/apiserver/metadata_routes.go:329-353 | whatever was purged, a call is allowed exactly when the last window of its subject is unset, over or not used up, and the subject is stored or fewer than 10,000 stored windows are running |
| RateLimit.WindowsCount | backend/internal/apiserver/metadata_routes.go:343-352 | a window counts the calls allowed since it began, and little was allowed in the window length before it on its side of the zero time |
| RateLimit.BurstBound | backend/internal/apiserver/metadata_routes.go:329-353 | a half-open span of one window length holds at most 2 * maximum - 1 allowed calls of a subject if it does not contain the zero time or the run never shows it |
| RateLimit.BoundIsReached | backend/internal/apiserver/metadata_routes.go:343-352 | for every maximum and every window some run reaches the bound |
| RateLimit.ZeroClockNeverLimits | backend/internal/apiserver/metadata_routes.go:343-346 | any number of calls at the zero time is allowed, in every span that contains it |
| RateLimit.BurstBoundExactly | backend/internal/apiserver/metadata_routes.go:329-353 | a span keeps the bound in every ordered run exactly when the zero time is not in it |
| RateLimit.ClockMeetsBoundExactly | backend/internal/apiserver/metadata_routes.go:343-346 | all spans of all ordered runs over a set of instants keep the bound exactly when the set lacks the zero time, or windows are empty |
| TokenStats.SumHolders | backend/internal/stats/calculator.go:86-97 | the circulating supply and the holder count as sums over the holders |
| TokenStats.ScanCandles | backend/internal/stats/calculator.go:107-126 | ATH is the highest of the base and the candle highs with the earliest time that reaches it; volume, baseline and latest candle by meaning |
| TokenStats.ValueToken | backend/internal/stats/calculator.go:79-102 | spot price, FDV, market cap and holder count by meaning |
| TokenStats.ComputeTokenStats | backend/internal/stats/calculator.go:73-138 | the result is the aggregate of the input, or the range error |
| TokenStats.ValuationSpelledOut | backend/internal/stats/calculator.go:79-102 | price, valuation, market cap, liquidity and holder count in plain terms; the zero address, 0xdEaD and the curve hold nothing that circulates, and they and the pair are no holders |
| TokenStats.OneMoreHolder | backend/internal/stats/calculator.go:86-97 | what one more holder at each kind of address does to the market cap and the holder count |
| TokenStats.HistorySpelledOut | backend/internal/stats/calculator.go:69-126 | the volume of the candles of the last 24 hours, and the ATH over the one on record or the launch price |
| TokenStats.PriceChangeSpelledOut | backend/internal/stats/calculator.go:107-145 | which two closes the price change compares, and its truncated value or range error |
| TokenStats.TotalIgnoresOrder | backend/internal/stats/calculator.go:87-97 | the sums depend on the multiset of the holders or candles only |
| TokenStats.OrderDoesNotMatter | backend/internal/stats/calculator.go:73-138 | the aggregate does not depend on the order of holders, nor of candles with distinct starts |
| TokenStats.MarketCapWithinFDV | backend/internal/stats/calculator.go:83-102 | 0 <= MarketCap <= FDV |
| TokenStats.ATHOverAggregations | backend/internal/stats/calculator.go:69-116 | over any number of aggregations that feed the ATH back, it is the highest of the base and of all candle highs ever seen, with the earliest start in the round that first saw it |
| TokenStats.PriceChangeTruncates | backend/internal/stats/calculator.go:127-145 | the change is truncated towards zero and fails exactly outside the safe integers |
| Amounts.DecimalPieces | web/src/amounts.ts:48-51 | a string of the pattern splits into its digits before and after the dot |
| Amounts.ParseMeaning | web/src/amounts.ts:47-57 | parsing reads the digits as a whole number of base units, and when it fails with which error |
| Amounts.DecimalsParse | web/src/amounts.ts:47-57 | a decimal with any white space around it is its digits in base units, or refused for too many places or bad decimals |
| Amounts.OnlyDecimalsParse | web/src/amounts.ts:47-57 | whatever parses is a decimal with white space around it |
| Amounts.DigitsInBaseTen | web/src/amounts.ts:52-56 | what digits and powers of ten stand for |
| Amounts.PrintedForm | web/src/amounts.ts:74-82 | what is printed: the whole part without leading zeros, and the leading digits of the fraction without trailing zeros |
| Amounts.ParseOfFormat | web/src/amounts.ts:47-83 | parsing the printed v gives v - v mod 10^(decimals - digits), hence v with all digits |
| Amounts.RoundTrip | web/src/amounts.ts:47-83 | with all digits the round trip is exact precisely for non-negative values |
| Amounts.FormatIsInjective | web/src/amounts.ts:59-83 | with all digits no two values print alike |
| Amounts.GroupedIsThousands | web/src/amounts.ts:90-90 | the pattern puts commas between groups of three digits from the right |
| Amounts.DisplayIsGrouped | web/src/amounts.ts:85-92 | the display form without its commas is the plain form, and fails exactly when that does |

## Left out

- Curve: the nil fields of zero-value Parameters and State, and the getters that copy; NewState is the same copying as NewParameters.
- Chain: ABI decoding beyond whether it succeeds and the launch fields that callers use; Keccak and address checks; transport retries.
- Discovery: the sorting of addresses before batching and of launch blocks before refetching, replaced by any order; DiscoveryResult.Launches; the pair check asks the chain and may give any verdict; NewDiscoverer's argument checks.
- Storage: the tokens projection, which TokenIdentities reads, is taken to be the stored launches; SQL text, projections, dirty marks and notifications; refreshing them is one call that may fail. One chain and one deployment.
- Storage.Store.UpsertIndexedBlock: the error for a stored row that is identical yet unaffected cannot arise in the model, where a refresh always counts as changed.
- Storage.Store.IngestEvent: does not model the projection updates that Ingest methods make after an insert.
- Indexer: New's defaults for settings, the callbacks, the poll timer, and int64 wrap-around at heights near 2^63; the ordering rules of the router beyond event conflicts, which count as a routing failure.
- Indexer.Engine.Run: the context is cancelled after a number of steps, and waiting is not modelled.
- Indexer.Engine.RecordFork: the check that the ancestor is not below the safe mark is an assertion, because no candidate is below it.
- Liveness of the environment: a step completes when the provider and the store are reliable and no log stands in its way (`Indexer.Engine.Step`); how often that is so is not modelled.
- CurveVectors: the other published vectors; the outcome of every quote is proved in general.
- Realtime: JSON decoding, wrap-around of the uint64 id, and the interleaving of callers inside one operation, which the mutex excludes.
- RateLimit: monotonic clock readings; instants are integers.
- TokenStats: aliasing of big.Int values; the result is built from fresh ones.
- Amounts: decimals that are not integers, the canonical and bounded-number helpers, and default arguments.
- Deployment, HTTP routes, SSE streaming, authentication, the React application and the contracts.
