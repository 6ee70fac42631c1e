# Verification of the prediction-market backend

The backend mirrors a prediction-market engine, its resolution contracts and a shielded pool into
database tables, and sends transactions through one relayer key. This project models the parts of it
that keep money figures, resume after crashes, interleave or retry, and proves what they keep over
every history.

| files | what they model |
|---|---|
| `Ledger`, `LedgerLaws`, `LedgerRuns`, `CostBasis`, `Positions` | the market books and the trade tape: conservation, cost basis, replay, settled figures |
| `Rescan` | batches that die, between logs or inside a handler, and are scanned again |
| `Json`, `JsonGrammar`, `Metadata`, `CanonicalText`, `MarketCopies` | the metadata commitment: canonical text, its parser against the grammar of RFC 8259, the copy a market is shown with |
| `Resolution`, `ResolutionRows` | the resolution row, and the serializer, the settlement query and the operations queue that read it |
| `EventProcessor` | the event processor as a class over its tables, equal to the functions above |
| `ChainOrder`, `Indexer` | range planning, concurrent fetches, ticks, the cursor |
| `PoolTree`, `PoolIndexer` | the pool mirror committed with its cursor, the two Merkle inputs, the association-root window |
| `PromiseChain` | the promise chain used as nonce queue and as withdrawal lock, over an event loop |
| `Withdrawal`, `WithdrawalProgress`, `WithdrawalQueues` | publish-then-relay under the lock over the shared queue: safety, honest answers, liveness |
| `RelaySpend`, `RateLimit` | gas policy, daily cap, per-account rate |
| `Settlement` | the unattended settler: pacing, backoff, batch |
| `Sessions` | refresh sessions: lineages and reuse |

Code that updates state step by step is a class whose methods are proved equal to functions of the
old state; the laws are lemmas about those functions. Code whose steps interleave with other senders,
with the chain or with failures is a state machine over labelled actions, and its laws hold in every
reachable state.

Addresses are text folded by `Lower`. Money is unbounded integers (the source uses `bigint` and
`Decimal`); `/` is floor division on non-negative operands, as in the source. Hashes and tree roots are
arbitrary functions, assumed free of collisions only where a lemma says so.

## Where code and documentation part

- `README.md:147` calls the indexer idempotent under re-scans. Only the trade tape is
  (`LedgerRuns.TapeSurvivesRescan`). The pot, each outcome's stock, each position's basis less its
  realised PnL, and that over all positions are off by exactly what the dead attempts left in them
  (`Rescan.RescanCountsTwice`), so each is right if and only if that is zero, which it can be for the pot
  and not for the stock (`Rescan.PotMayBeRightAlone`).
- `prisma/schema.prisma:313-316` says a null `marketRef` is filled in on the next event. Only a new
  proposal writes it, and such a market is listed as awaiting and as live at once
  (`Resolution.QueuedTwiceIff`).
- `src/admin/admin.service.ts:174-205` treats a market as awaiting a proposal from just after its
  closing instant, `src/markets/market.serializer.ts:151-157` from that instant on
  (`Resolution.AwaitingAgreesIff`).
- `src/relay/settlement.service.ts:160-163` books the cooldown before the attempt, so it spaces attempts.
  Broadcasts are spaced with them, unless a receipt read fails before its minute is up
  (`Settlement.BroadcastsAreSpacedIff`).
- `README.md:63` says reuse of a refresh token revokes the session. The code revokes every session of
  the user (`Sessions.ReuseEndsEverySession`); a rotation that had read its row before leaves the user a
  live session again if and only if its new row is stored (`Sessions.ReuseRevocationUndoneIff`), for want
  of a check at the write (`Sessions.CommitRevivesIff`).
- `README.md:145` says only confirmed blocks are processed. While the chain is shorter than the
  confirmation depth the safe head is block 0, which is processed unconfirmed
  (`Indexer.TickKeepsExact`).
- `src/pool/pool.service.ts:252-258` tells a trader that nothing was spent. No relay transaction was sent
  unless its own result was lost (`Withdrawal.AnswersAreTrue`), but the root it needed has been paid for
  if its read found another one and the job was broadcast (`Withdrawal.RootPaidForIff`,
  `Withdrawal.FailedAfterPaying`).

## Model

| member | source | states |
|---|---|---|
| LedgerLaws.TradeConserves | src/chain/event-processor.service.ts:328-430 | a buy, sell or short moves the pot and the position rows by the same cash, if and only if its handler does not throw half-way (or moves no cash); stock and rows move by the same shares up to what was oversold |
| LedgerLaws.LegsConserve | src/chain/event-processor.service.ts:401-414 | the bases charged to a short's legs add up to its cost exactly, whatever the division leaves over |
| LedgerLaws.Conservation | src/chain/event-processor.service.ts:328-430 | over a market's whole trading life, pot minus seed cost equals basis minus realised PnL over all positions, and each outcome's traded stock equals its position shares minus what was oversold |
| Ledger.Legs | src/chain/event-processor.service.ts:394-395 | every outcome but the one bet against, each once, in index order |
| Ledger.BasisRemoved | src/chain/event-processor.service.ts:781-792 | a sale of what is held never takes out more basis than there is |
| LedgerLaws.BasisRounding | src/chain/event-processor.service.ts:781-802 | after k sales the basis left is the exact pro-rata share rounded up by less than k units, never less |
| LedgerLaws.ClosedOutIsZero | src/chain/event-processor.service.ts:781-821 | while purchases credit shares, a position sold to nothing has exactly zero basis, after any history |
| CostBasis.StepFigures | src/chain/event-processor.service.ts:781-821 | a purchase raises a row's shares and basis by what it credited and cost and leaves realised PnL alone; a sale takes out shares and the floored share of basis and realises the proceeds less that basis |
| CostBasis.FiguresAddUp | src/chain/event-processor.service.ts:768-822 | over any trading history, basis left plus basis taken out by sales is all that was charged, and realised PnL is the proceeds less the basis taken out |
| CostBasis.BasisIsWhatWasPaid | src/chain/event-processor.service.ts:802-821 | a position never sold from has realised nothing, and its basis is the sum of what its purchases and short legs cost |
| LedgerRuns.RunProjects | src/chain/event-processor.service.ts:85-101 | a market's book is determined by its own logs, whatever they were interleaved with |
| LedgerRuns.RunOkIff | src/chain/event-processor.service.ts:85-101 | a batch goes through exactly when every market's own history in it does |
| LedgerRuns.InterleavingIrrelevant | src/chain/event-processor.service.ts:85-101 | two deliveries that agree market by market leave the same books |
| LedgerRuns.StepsCommute | src/chain/event-processor.service.ts:105-166 | neighbouring logs of different markets may be swapped, trade tape included |
| LedgerRuns.BatchCutsIrrelevant | src/chain/event-processor.service.ts:85-101 | however the logs are cut into batches, the tables and the outcome are those of the uncut run |
| LedgerRuns.ShortReplays | src/chain/event-processor.service.ts:381-430 | the short's loop over its legs equals one simultaneous update of every other outcome, the last carrying the remainder |
| LedgerRuns.LedgerIsReplay | src/chain/event-processor.service.ts:328-430 | the incrementally kept pot, shares and positions equal a from-scratch replay of the trade table in chain order |
| Rescan.StepMoves | src/chain/event-processor.service.ts:328-430 | a trade moves the pot, an outcome's stock, a position's basis less realised PnL and their total by amounts that do not depend on the book |
| Rescan.PartMoves | src/chain/event-processor.service.ts:338-356 | what a buy, sell or short cut short after any number of its writes has moved by then |
| Rescan.DeathShifts | src/chain/indexer.service.ts:158-164 | one dead attempt, whether or not it created the market and wherever in a handler it died, shifts each figure by exactly what it left behind |
| Rescan.RescanCountsTwice | src/chain/indexer.service.ts:158-164 | after any number of dead attempts and one that goes through, each figure of a trading market is off by the sum of what they left, so right exactly when that is zero |
| Rescan.PotMayBeRightAlone | src/chain/event-processor.service.ts:345-354 | a purchase and a sale for the same cash leave the pot right, and the stock right only if they were for as many shares |
| Rescan.SparedRowIsRight | src/chain/event-processor.service.ts:768-822 | a position that no dead attempt traded comes out exactly as without them |
| LedgerRuns.TapeSurvivesRescan | src/chain/event-processor.service.ts:736-766 | delivering any recognised run again neither adds nor changes a row of the trade table |
| LedgerRuns.TradesAreShown | src/chain/event-processor.service.ts:736-766 | every trade of a run is on the tape with its side, account, outcome, amounts, spread and place, at its average price rounded down |
| Positions.ClaimsKeepShares | src/chain/event-processor.service.ts:464-492 | claims never touch shares, basis, stock, winner or the settled status |
| Positions.WinningsAddUp | src/positions/positions.service.ts:46-67 | on a resolved market everything shown as won adds up to the winning outcome's traded stock plus what was oversold of it, before and after any claims |
| Positions.RefundsAddUp | src/positions/positions.service.ts:46-67 | on a voided market what is shown adds up to the whole remaining cost basis, although rows without shares show zero |
| Positions.MarkIsFloor | src/positions/positions.service.ts:46-67 | while trading, a position is shown at shares times live price rounded down to a unit, and not at all without an outcome row |
| Positions.SettledMark | src/positions/positions.service.ts:46-67 | zero without shares, the shares on the winning outcome, zero on another, the basis when voided |
| Positions.ClaimsPay | src/chain/event-processor.service.ts:464-487 | claims lower the pot by what they pay and add an account's payouts to every one of its rows, marked redeemed if and only if it claimed |
| Positions.SettledFigures | src/chain/event-processor.service.ts:434-487 | after a resolution the pot is what is owed less what was claimed since, after an invalidation what it was less that; winner and surplus are the event's |
| Json.TextRoundTrip | src/admin/metadata-hash.ts:38-47 | a printed string is read back as itself for every sequence of UTF-16 code units, lone surrogates and control characters included |
| Json.ParsePrint | src/admin/metadata-hash.ts:38-80 | parsing the text of any tree of strings, nulls and arrays returns that tree |
| Json.PrintWellFormed | src/admin/metadata-hash.ts:38-52 | printed text never holds an unpaired surrogate, so its UTF-8 bytes determine it |
| JsonGrammar.EveryTextIsRead | src/admin/metadata-hash.ts:77-82 | every text the grammar of RFC 8259 gives a value of strings, literals and arrays, whatever its whitespace and escapes, is parsed as that value |
| JsonGrammar.ParsedIff | src/admin/metadata-hash.ts:77-82 | and such a value is parsed from no other text |
| CanonicalText.OrdinaryIsKept | src/admin/metadata-hash.ts:38-47 | text without control characters, quotation marks, reverse solidi and surrogates is printed as it is |
| CanonicalText.OthersAreEscaped | src/admin/metadata-hash.ts:38-47 | any other unit is printed by its own two-character escape or as four lower-case digits |
| CanonicalText.CanonicalIs | src/admin/metadata-hash.ts:38-47 | the canonical text spelled out: six pairs under their names in this order, no spaces, a missing value as null |
| CanonicalText.DecodeReads | src/admin/metadata-hash.ts:82-105 | any list of pairs decodes, in any order and with unknown keys; each field is the last value of its key, and anything but a string counts as absent |
| Metadata.ReadEntries | src/admin/metadata-hash.ts:82-90 | the loop that fills the key map accepts exactly lists of pairs with a string key, the last of a repeated key winning |
| Metadata.ParseCanonical | src/admin/metadata-hash.ts:73-105 | returns metadata exactly when the text decodes and the decoded value re-encodes to the expected hash |
| Metadata.AcceptedIff | src/admin/metadata-hash.ts:73-105 | a value is accepted exactly when the text decodes to it and its own canonical text has the expected hash |
| Metadata.HashCaseIsIgnored | src/admin/metadata-hash.ts:102-104 | whatever the case of the expected hash's digits |
| Common.LowerIs | src/chain/event-processor.service.ts:168-171 | folding an address turns every capital letter into its small one and changes nothing else |
| Metadata.RoundTrip | src/admin/metadata-hash.ts:38-105 | canonical text parsed against its own hash returns the value, for all metadata |
| Metadata.CanonicalInjective | src/admin/metadata-hash.ts:38-47 | different metadata never shares a canonical text |
| Metadata.OtherTermsAreACollision | src/admin/metadata-hash.ts:73-105 | with nothing assumed of the hash, accepting a value other than the committed one exhibits two different well-formed texts with one hash |
| Metadata.OnlyTheCommitted | src/admin/metadata-hash.ts:73-105 | with a hash free of collisions on well-formed texts, a text is accepted against a commitment exactly when it decodes to the committed value |
| Metadata.CanonicalWellFormed | src/admin/metadata-hash.ts:38-52 | the hashed text is well-formed for all metadata |
| Metadata.ServedCopyVerifies | src/chain/event-processor.service.ts:274-324 | the copy stored from a published text re-encodes to the committed hash if, and with a collision-free hash only if, there is one label per outcome |
| MarketCopies.CopiesShowTheirSources | src/chain/event-processor.service.ts:168-324 | after any logs a market is shown with the last metadata accepted since its creation, each outcome with the last label published for it, and before any with the draft its creation committed to |
| MarketCopies.ServesThePublication | src/chain/event-processor.service.ts:274-324 | it then serves exactly that metadata if and only if there is one label per outcome |
| MarketCopies.ServesTheDraft | src/chain/event-processor.service.ts:192-238 | until then, with one label per outcome, exactly the draft under the chain's own category |
| Resolution.TableProjects | src/chain/event-processor.service.ts:509-634 | a market's row is determined by its own resolver events |
| Resolution.OnlyTheCurrentProposal | src/chain/event-processor.service.ts:509-634 | after any history the row is what the events since the last proposal make of an empty table; it exists exactly when there was one |
| Resolution.EveryRowCoherent | src/chain/event-processor.service.ts:509-634 | proposed implies a deadline and no disputer or route, disputed implies a disputer, settled implies a route, in every reachable row |
| ResolutionRows.RowsPart | src/chain/event-processor.service.ts:494-634 | the processor's resolution table is made by the resolver's logs alone, each with whether its market was indexed by then |
| ResolutionRows.RowsShowTheirEvents | src/chain/event-processor.service.ts:509-634 | every column of every row the processor has holds the value of the last event of the current proposal that writes it: proposer, outcome or void, bonds, both deadlines in milliseconds, phase, route, reward, forfeit, loser, time and transactions |
| ResolutionRows.WindowIsTheEvents | src/markets/market.serializer.ts:159-173 | while a proposal stands it is disputable up to and including the second its event named, and finalizable for every reader from then on |
| Resolution.ReadersAgreeIff | src/relay/settlement.service.ts:126-137 | serializer, settlement query and operations queue differ on finalizable only over a proposal without a deadline |
| Resolution.ReadersAgree | src/markets/market.serializer.ts:159-173 | on every reachable row at every instant the three agree, and exactly one of disputable and finalizable holds if and only if the phase is proposed |
| Resolution.AwaitingAgreesIff | src/admin/admin.service.ts:174-205 | the two readers of "awaiting a proposal" differ exactly at the closing instant |
| Resolution.OneClockState | src/markets/market.serializer.ts:125-157 | a trading market is not open yet, open or awaiting; two at once only if it closes before it opens |
| Resolution.QueuedTwiceIff | src/chain/event-processor.service.ts:509-556 | a market past closing is listed as awaiting and as live at once exactly when its last proposal was handled before the market was indexed |
| EventProcessor.Processor.MarketRef | src/chain/event-processor.service.ts:824-839 | the cached lookup answers as the table would, and only ever caches what exists |
| EventProcessor.Processor.CreateMarket | src/chain/event-processor.service.ts:168-272 | a market is created once, with one seeded row per outcome and the adopted draft's copy; a second creation changes nothing |
| EventProcessor.Processor.OnMetadataPublished | src/chain/event-processor.service.ts:274-324 | only a text accepted against its hash replaces the copy, label by label over the existing outcome rows |
| EventProcessor.Processor.AddTrade | src/chain/event-processor.service.ts:736-766 | a trade already on the tape is left alone |
| EventProcessor.Processor.UpdatePosition | src/chain/event-processor.service.ts:768-822 | the position row becomes the sold or bought position of the specification, no other row changes |
| EventProcessor.Processor.OnTrade | src/chain/event-processor.service.ts:328-379 | the updates in their order, with the throw on a missing outcome row after the pot has moved, equal the ledger step |
| EventProcessor.Processor.ShortLegs | src/chain/event-processor.service.ts:394-396 | the legs are every outcome but the one bet against, in order |
| EventProcessor.Processor.FillEveryLeg | src/chain/event-processor.service.ts:401-414 | the leg loop equals crediting each leg in turn with its share of the cost |
| EventProcessor.Processor.OnShort | src/chain/event-processor.service.ts:381-430 | the short's handler equals the ledger step, including the silent return when there is no other outcome |
| EventProcessor.Processor.OnSettlement | src/chain/event-processor.service.ts:434-492 | resolution, invalidation and both redemptions equal the ledger step |
| EventProcessor.Processor.OnProposed | src/chain/event-processor.service.ts:509-542 | the upsert, creating the row or writing every column of one left by an earlier attempt, leaves the same row either way |
| EventProcessor.Processor.OnDisputed | src/chain/event-processor.service.ts:544-558 | its column updates are the row step, and a missing row stays missing |
| EventProcessor.Processor.OnFinalized | src/chain/event-processor.service.ts:560-575 | likewise |
| EventProcessor.Processor.OnArbitrated | src/chain/event-processor.service.ts:577-594 | likewise, the zero address recorded as no loser and the settlement time left alone |
| EventProcessor.Processor.OnSlashed | src/chain/event-processor.service.ts:601-614 | likewise |
| EventProcessor.Processor.OnResolutionCleared | src/chain/event-processor.service.ts:616-634 | likewise, the settlement columns left as they are |
| EventProcessor.Processor.OnRuling | src/chain/event-processor.service.ts:105-166 | whatever the ruling, the table moves by the step of its own row |
| EventProcessor.Processor.Apply | src/chain/event-processor.service.ts:105-166 | the dispatch on a log's name equals the specification's step on all tables, the handler's failure included |
| EventProcessor.Processor.ProcessBatch | src/chain/event-processor.service.ts:85-101 | the batch loop equals applying the logs in order up to the first that throws |
| EventProcessor.LedgerPart | src/chain/event-processor.service.ts:105-166 | the books and the tape within all tables evolve by the engine's logs alone |
| EventProcessor.ApplyAppend | src/chain/event-processor.service.ts:85-101 | over all tables, two batches in a row equal their concatenation |
| ChainOrder.SortSorts | src/chain/indexer.service.ts:44-47 | the sort orders by block, then log index, and keeps every log |
| ChainOrder.SortRecovers | src/chain/indexer.service.ts:44-47 | sorting any arrangement of chain-ordered logs gives back the chain's order |
| ChainOrder.SpanJoin | src/chain/indexer.service.ts:139-185 | adjacent spans of blocks join to the span of both, none missing and none twice |
| Indexer.CutsAreAPlan | src/chain/indexer.service.ts:193-207 | cutting at multiples of the batch width gives contiguous ranges, whole but for the last, below the safe head and within the request budget |
| Indexer.SafeHeadIs | src/chain/indexer.service.ts:139-142 | the safe head is exactly the confirmation depth below the head, or block 0 |
| Indexer.BudgetIsUsed | src/chain/indexer.service.ts:193-207 | a tick fetches as many ranges as the request budget allows and covers all their blocks up to the safe head |
| Indexer.Service.Plan | src/chain/indexer.service.ts:193-207 | the loop's ranges are such a plan from the cursor to the end of the tick's span, every cut of it and no other |
| Indexer.Service.NextFromBlock | src/chain/indexer.service.ts:251-255 | one past the cursor, or the configured start when there is none |
| Indexer.Service.CollectLogs | src/chain/indexer.service.ts:210-249 | the concurrent streams of a range together give every configured log of it once; nothing exactly when one of those streams fails over that range |
| Indexer.Service.Fetch | src/chain/indexer.service.ts:149-156 | the ranges fetched at once merge into exactly the chain's logs of the span, in chain order; nothing exactly when one of the tick's own requests fails |
| Indexer.Service.Tick | src/chain/indexer.service.ts:139-185 | a tick delivers the span from the cursor to its planned end and saves that end, or fails and keeps the cursor; it fails exactly when one of its requests does, a handler throws on its logs, or the process dies before the cursor is saved |
| Indexer.Service.BooksAreTheChain | src/chain/indexer.service.ts:139-185 | until a tick dies half-way the books and the tape are one pass over the chain's engine logs up to the cursor |
| Indexer.TickKeepsExact | src/chain/indexer.service.ts:139-185 | the batches of successful ticks stay exactly the chain's logs from the start block through the cursor; the cursor never moves back, and where it moves to is confirmed exactly when the chain is as long as the confirmation depth |
| Indexer.RunExact | src/chain/indexer.service.ts:139-263 | so in every state of every run, with ticks failing anywhere |
| Indexer.Confluence | src/chain/indexer.service.ts:139-263 | two indexers that reached the same block have delivered the same logs in the same order, whatever their widths, stream order, confirmations, heads and failures |
| PoolIndexer.Service.Tick | src/pool/pool-indexer.service.ts:120-177 | leaves and cursor move together or not at all however the transaction ends; exactly when it fails; the caught-up flag is set by reaching the safe head alone |
| PoolIndexer.Service.Restart | src/pool/pool-indexer.service.ts:62-96 | a new process keeps the mirror and forgets that it had caught up |
| PoolIndexer.Service.Leaves | src/pool/pool.service.ts:120-124 | every read in block and log order is exactly the chain's leaves from the start block through the cursor: one row per Deposited and Withdrawn event with that event's own fields, giving the state tree the events' commitments and new commitments and the association tree the deposits' labels |
| PoolIndexer.PlannedEndIs | src/pool/pool-indexer.service.ts:120-132 | a tick asks for one batch, stopped at the last confirmed block |
| PoolIndexer.LeavesRecord | src/pool/pool-indexer.service.ts:180-226 | the decoded rows record the mirrored logs one for one and in order, every column the event's value for it or empty |
| PoolIndexer.RowOfLog | src/pool/pool-indexer.service.ts:180-226 | every deposit and every withdrawal has its row |
| PoolIndexer.LogOfRow | src/pool/pool-indexer.service.ts:180-226 | and every row its event |
| PoolIndexer.RecordedTrees | src/pool/pool.tree.ts:40-61 | such rows feed the state tree the inserted commitments and the association tree the deposited labels, read off the events |
| PoolIndexer.CommitMirrors | src/pool/pool-indexer.service.ts:138-169 | upserting a span's rows in any order extends an exact mirror by exactly that span |
| PoolIndexer.ReadIsTheChain | src/pool/pool.service.ts:113-124 | a table that mirrors chain-ordered leaves can only be read back as them |
| PoolIndexer.ReadsArePrefixes | src/pool/pool.service.ts:113-124 | each read is a prefix of every later one |
| PoolIndexer.StateTreeIff | src/pool/pool.tree.ts:40-44 | the tree built from the mirror is given what the chain's events inserted up to the cursor exactly when none was inserted before the start block |
| PoolTree.BuildStateTree | src/pool/pool.tree.ts:40-44 | inserts every leaf's commitment in order |
| PoolTree.BuildAspTree | src/pool/pool.tree.ts:53-61 | inserts the labels of deposits only, in order |
| PoolTree.AspRootHistory | src/pool/pool.tree.ts:79-88 | the incremental loop gives the roots of the deposit prefixes, cut to the window as JavaScript's slice does |
| PoolTree.WindowIff | src/pool/pool.tree.ts:79-88 | a served root is recognised if, and when no two of these deposits' sets share a root only if, fewer deposits than the depth have followed |
| PoolTree.LabelsGrow | src/pool/pool.tree.ts:53-61 | more leaves only append labels, so an earlier association set is a prefix of a later one |
| PoolTree.RecognisedRoots | src/pool/pool.tree.ts:53-88 | everything recognised is the root of a non-empty prefix of the indexed deposits, the newest is the current association root, and a depth of zero drops nothing |
| PoolTree.ServedRootRecognised | src/pool/pool.service.ts:219-226 | a root served from an earlier read is accepted against a later one while fewer than 32 deposits came in between |
| PromiseChain.Chain.Enqueue | src/relay/relay.service.ts:915-924 | the new run hangs on the old queue, the swallowing tail on the run, and the field becomes the tail; the same code locks withdrawals at src/pool/pool.service.ts:375-384 |
| PromiseChain.InOrderOneAtATime | src/relay/relay.service.ts:915-924 | in every reachable state of the event loop the tasks have run once each, in submission order, each after the one before it ended |
| PromiseChain.OneAtATime | src/relay/relay.service.ts:111-119 | never two tasks at once |
| PromiseChain.CallersGetTheirOwn | src/relay/relay.service.ts:915-924 | a caller's promise is settled exactly when its own task has ended, with that task's outcome |
| PromiseChain.FailuresDoNotPoison | src/pool/pool.service.ts:375-384 | what the chain holds is never rejected, whatever tasks do |
| PromiseChain.EveryTaskIsReached | src/relay/relay.service.ts:915-924 | while a task is unsettled exactly one promise can move, and each step other than a submission brings the end one nearer |
| PromiseChain.RefinesFifo | src/pool/pool.service.ts:375-384 | seen from outside the chain is a first-in first-out queue |
| Withdrawal.StaysInStep | src/pool/pool.service.ts:238-311 | faults or none, only the lock's holder has a call of its own in the nonce queue, and it is the one it waits on |
| Withdrawal.StaysSafe | src/pool/pool.service.ts:275-311 | every action, faults included, keeps: a withdrawal that got the lock with no root pending faces no pending root but its own, and its unexecuted proof has its root on chain and goes before any pending one |
| Withdrawal.EndsAsItsStepsDo | src/pool/pool.service.ts:238-311 | a withdrawal ends badly exactly when a step of its own failed (its read, the cap, its wait, a reverted receipt, one of its jobs) and well exactly when its relay's hash came back |
| Withdrawal.PinsAreTheCallers | src/pool/pool.service.ts:216-239 | each withdrawal works for the root its caller proved against, in the order of the calls |
| Withdrawal.ProofsMeetTheirRoot | src/pool/pool.service.ts:238-311 | over every interleaving and whatever faults occur, the proof of a withdrawal that got the lock with no abandoned root pending pins the entrypoint's latest root from reaching the head of the queue until executed |
| Withdrawal.CleanMeans | src/pool/pool.service.ts:238-239 | those withdrawals are exactly the ones that acquired the lock while no root was pending |
| Withdrawal.FaultFreeProofs | src/pool/pool.service.ts:238-311 | in a run in which no publication was given up on, every proof meets its root |
| Withdrawal.OnlyAbandoningStrays | src/pool/pool.service.ts:303-309 | only a timed-out receipt or a lost publication leaves a root pending that nobody waits for |
| Withdrawal.PublishingIsNeeded | src/pool/pool.service.ts:268-277 | an `updateRoot` about to be sent by such a withdrawal always changes the root |
| Withdrawal.AnswersAreTrue | src/pool/pool.service.ts:196-266 | success with exactly one relay transaction of its own pin, failure with none: true of a withdrawal exactly when its own proof's result was not lost between broadcast and return |
| Withdrawal.LostMeans | src/relay/relay.service.ts:567-579 | and its result was lost exactly when its own job failed after its broadcast |
| Withdrawal.RootPaidForIff | src/pool/pool.service.ts:275-288 | a withdrawal has paid for a root exactly when its read found another one and the job was broadcast |
| Withdrawal.FailedAfterPaying | src/pool/pool.service.ts:252-258 | a run in which a withdrawal fails, nothing relayed, after its root was paid for |
| Withdrawal.SafeToRelayIff | src/pool/pool.service.ts:290-309 | a proof sent behind pending transactions meets its root under every outcome of those exactly when the root is on chain already and no other root is pending |
| Withdrawal.BroadcastIsSafeIff | src/relay/relay.service.ts:566-575 | so in every state in which a proof is about to be broadcast, of the transactions pending there |
| Withdrawal.StrayRootBreaksIt | src/pool/pool.service.ts:303-309 | a run in which a receipt wait times out and a later proof reaches execution on another root |
| WithdrawalQueues.LockIsAChain | src/pool/pool.service.ts:375-384 | each action of the protocol moves the lock as a promise chain moves |
| WithdrawalQueues.QueueIsAChain | src/relay/relay.service.ts:529-581 | and the nonce queue likewise |
| WithdrawalProgress.NeverStuck | src/pool/pool.service.ts:238-266 | whoever holds the lock, the step they wait for is possible: the nested queues cannot deadlock |
| WithdrawalProgress.NothingGoesBack | src/relay/relay.service.ts:529-590 | no action of any sender or of the chain puts a withdrawal further back, and the awaited step brings it forward |
| WithdrawalProgress.EveryWithdrawalEnds | src/pool/pool.service.ts:196-266 | in every infinite run in which the calls made for the holder return, every admitted withdrawal ends |
| WithdrawalProgress.UnfailedWithdrawalRelays | src/pool/pool.service.ts:238-311 | if moreover none of its own steps fails, it ends well, with exactly one relay carrying the root it was admitted with |
| RelaySpend.GasIsBounded | src/relay/relay.service.ts:691-730 | accepted exactly when the estimate with its margin fits; never less gas than estimated, never dearer than the configured worst, tip within fee |
| RelaySpend.GasIsGreatest | src/relay/relay.service.ts:708-729 | the limit, the fee and the tip are each the greatest that the margins, the configuration and the node's figures allow, one gwei standing in for a missing tip |
| RelaySpend.Ledger.EnforceDailyCap | src/relay/relay.service.ts:753-764 | admits exactly while the day's recorded spend is below the cap |
| RelaySpend.Ledger.RecordSpend | src/relay/relay.service.ts:766-778 | adds the floor in gwei to the booking day's counter and to no other |
| RelaySpend.DailyCeiling | src/relay/relay.service.ts:753-795 | on every day of every run recorded spend stays below cap + K worst sends, K the most requests open at once, midnight included; what was authorised exceeds it by less than a gwei a send and by what failed to be recorded |
| RelaySpend.CeilingIsReached | src/relay/relay.service.ts:753-795 | for every positive cap of whole gwei and every K a run reaches that ceiling to the gwei |
| RateLimit.Limiter.Enforce | src/relay/relay.service.ts:739-750 | spellings of one address share a counter, others are untouched, and the request passes exactly while the count is within the limit |
| RateLimit.TwiceTheLimit | src/relay/relay.service.ts:739-750 | any stretch as long as the window admits at most twice the limit, for every arrival pattern and even if the expiry is set late or never |
| RateLimit.TwiceIsReached | src/relay/relay.service.ts:739-750 | and that bound is met |
| RateLimit.LostExpireBlocks | src/relay/relay.service.ts:742-743 | if the expiry is never set, an account at its limit is refused for good |
| Settlement.Service.BackOff | src/relay/settlement.service.ts:187-194 | counts the failure and books the doubled, capped delay |
| Settlement.Service.Finalize | src/relay/settlement.service.ts:147-184 | books before sending, forgets failures once sent, backs off on a failed send or a reverted receipt |
| Settlement.Service.SettleDue | src/relay/settlement.service.ts:122-145 | one pass tries the due rows in order that are past their booked time, all judged by one clock reading |
| Settlement.AttemptCounts | src/relay/settlement.service.ts:173-189 | the failure counter is the number of failures in a row that the history of attempts shows |
| Settlement.AttemptsArePaced | src/relay/settlement.service.ts:75-81 | over a process's life attempts on one proposal are booked at least 60 s apart, and after the n-th failure in a row at least min(60 s * 2^(n-1), 30 min) after it |
| Settlement.AttemptsInAnyStretch | src/relay/settlement.service.ts:64-73 | at most 1 + T/60000 attempts on one proposal in any T milliseconds |
| Settlement.Delays | src/relay/settlement.service.ts:75-79 | the backoffs are 60, 120, 240, 480 and 960 seconds and half an hour from the sixth failure on |
| Settlement.ReadyAtIs | src/relay/settlement.service.ts:160-194 | the next attempt is allowed a minute after booking, or the n-th backoff after the n-th failure in a row |
| Settlement.TriedIff | src/relay/settlement.service.ts:139-144 | after any run a due row is tried in its turn exactly when it never was, or that instant is over by the pass's clock |
| Settlement.BroadcastGap | src/relay/settlement.service.ts:160-183 | broadcasts for one proposal come in order, the later no sooner than the earlier's cooldown and receipt wait allow, and at least 60 s apart unless that receipt was unreadable |
| Settlement.UnreadableReceipt | src/relay/relay.service.ts:584-590 | after a receipt read that fails early, a run that broadcasts again as soon as the cooldown is over |
| Settlement.BroadcastsAreSpacedIff | src/relay/settlement.service.ts:160-183 | broadcasts after a given one are a minute from it in every run exactly when its receipt was read, or waited for in full, or it went out the moment it was booked |
| Settlement.LookedAt | src/relay/settlement.service.ts:126-137 | a due row is looked at when fewer than ten others are as early, and never while ten are earlier, backoff or not |
| Sessions.AuthTokens.IssueFor | src/auth/auth-tokens.service.ts:44-78 | adds one live session and changes no other |
| Sessions.AuthTokens.RotateToken | src/auth/auth-tokens.service.ts:85-125 | the checks in their order decide the answer; success revokes the presented row and mints in its lineage, reuse revokes the user's every session |
| Sessions.AuthTokens.RevokeToken | src/auth/auth-tokens.service.ts:128-141 | marks the named row unless already marked |
| Sessions.AuthTokens.RevokeUser | src/auth/auth-tokens.service.ts:143-148 | marks exactly the user's unmarked rows |
| Sessions.GoodTokenIff | src/auth/auth-tokens.service.ts:89-115 | a token is good exactly when verified, a refresh token, known with its own hash, unrevoked and not past its last instant; when it counts as reused, and when as expired |
| Sessions.LoginMints | src/auth/auth-tokens.service.ts:44-78 | a login makes one live session of a lineage of its own |
| Sessions.RotationMints | src/auth/auth-tokens.service.ts:117-124 | a rotation kills the presented session and makes one live session of the same user and lineage |
| Sessions.LogoutKills | src/auth/auth-tokens.service.ts:127-141 | a logout kills the session it names and no other |
| Sessions.UserIsLoggedOut | src/auth/auth-tokens.service.ts:143-148 | revoking a user kills all of its sessions and nobody else's |
| Sessions.AtMostOneLive | src/auth/auth-tokens.service.ts:43-148 | over any sequence of operations a login has at most one live session, its newest |
| Sessions.NeverRevives | src/auth/auth-tokens.service.ts:117-148 | a revoked session keeps its revocation for ever; nothing else of a row changes |
| Sessions.ReuseEndsEverySession | src/auth/auth-tokens.service.ts:108-112 | a rotated token presented again after anything else is refused, mints nothing and leaves its user no live session, other users untouched |
| Sessions.LateCommitIff | src/auth/auth-tokens.service.ts:101-123 | a rotation that writes after a stale read keeps one live session per login exactly when every other session of the login is revoked by then |
| Sessions.ReuseRevocationUndoneIff | src/auth/auth-tokens.service.ts:101-123 | after a reuse revocation, a rotation that had read its row before leaves the user a live session exactly when its new row is stored |
| Sessions.CommitRevivesIff | src/auth/auth-tokens.service.ts:117-123 | a write keeps a logged-out user logged out exactly when its row is still unrevoked at that moment or nothing is stored |
| Sessions.TwoReadsForkALogin | src/auth/auth-tokens.service.ts:101-123 | two rotations that both read before either writes leave two live sessions of one login |

## Left out

- Sessions.AuthTokens.RotateToken: check and write are one step, as a database without concurrent requests on the same row would make them; `LateCommitIff` says what a gap between them costs.
- LedgerLaws.Conservation: cash conservation is stated for the trading phase; a redemption adds the payout to every outcome row of the account (src/chain/event-processor.service.ts:469-472), so realised PnL has no such law afterwards.
- Rescan.RescanCountsTwice: states the trading phase; a resolution sets the pot outright, and redemptions have no such law (see above).
- RelaySpend.Ledger.RecordSpend: the counter's two-day expiry, the warning at 80 percent and the conversion to a floating-point number (exact below 2^53 gwei) are not modelled.
- RateLimit.TwiceTheLimit: the window is at least one second, as configuration validation demands.
- Settlement.AttemptsArePaced: the maps live in memory, so the spacing is that of one process; a restart forgets it. The clock is taken never to step back.
- Settlement.BroadcastsAreSpacedIff: once a finalize has landed and its receipt was read, the contract is taken to refuse another in simulation.
- Withdrawal.ProofsMeetTheirRoot: this process is taken to be the only publisher of roots.
- Indexer.Service.Tick: requests made at once are modelled one after another, their answers being independent; below the safe head an answering node is taken to be truthful and the chain fixed.
- JsonGrammar.ParsedIff: numbers and objects are parsed but their values dropped, since nothing reads them, and their own grammar is not part of the equivalence.
- Settlement of who is owed what on chain, the engine, the resolver, the pool and the forwarder contracts: only their events, the root check and reverts appear.
- keccak, Poseidon, the LeanIMT node layout, Groth16, JWT and SIWE: opaque functions, or a verified payload.
- NestJS wiring, controllers, DTO validation, the socket gateway, logging, realtime messages and their `touched` set.
- Prisma, Redis and viem internals, transactions in general and foreign keys.
- Price refreshes, candles, sparklines and other aggregates over external reads.
- The trading ban list, profiles, categories, drafts as edited, seeding and operator scripts: easy look-ups and writes.
- The relayer's balance cache, its gauge and the boot-time wiring checks.
- Timers of the loops: a run is any sequence of ticks at any heads and times.
