# Verified model of the rollup's core algorithms

A Dafny model of six parts of the repository, with proofs of what they promise.

- **Lend/borrow matching.** `StableSort`, `AuctionMatching`, `AuctionCells`, `AuctionOptimality`, `AuctionEngine` and
  `AuctionGuarantees` model the greedy engine. `AuctionEngine` works on mutable orders whose match records are
  shared between the borrower's and the lender's list; its methods are proved against the greedy scan of
  `AuctionMatching`, and `AuctionGuarantees` carries the laws of the scan over to the orders. `AuctionPriority` says
  in terms of the orders' own fields who is served first, who is returned and what an order earns. `ProRata` models the
  sibling engine that splits each rate bucket in proportion, with an exact or a rounding division, and shows that
  with exact division the two engines fill every borrower alike, and how far apart rounding can drive them.
- **Settlement.** `Settlement` says what each request does to balances, order leaves and the held taker order.
  `SettlementLaws` says which stored balance, nonce, root and order that moves, by how much, and that nothing else
  does, to somebody who only reads the stored leaves, and `TraceLaws` what such a reader finds in the recorded
  entries. `LockLedger` and `Conservation` prove what holds over all runs of requests, refused ones included.
  `WitnessTrace` says what each transaction records for the proof of its block and what its last steps can still
  refuse; `Sequencer` is the class that settles and records step by step.
- **Merkle trees.** `MerkleSpec` holds the laws of a tree laid out in one array and `MerkleLaws` the shape of its
  root, `DenseMerkleTree` the tree that updates one path in place, `SparseMerkleTree` the table of default hashes and
  the co-path ids.
- **MiMC7.** `MimcHash` relates the plain hash to the one with truncating remainders, `MimcReference` tells both by
  the seventh powers of their rounds alone, `DecimalKeys` and `NumberText` show that cache keys do not collide,
  `MimcCache` is the hash with its shared table of results. `MimcConstants` holds the modulus and the round constants.
- **Block pipeline.** `BlockPipeline` models cursors, queues and the prover's two ways of choosing a block;
  `PipelineLaws` says row by row what each event does in any state.
- **Number encodings.** `AmountCodes`, `AmountSigns`, `ByteCodecs`, `DigitPlaces` and `HexText`; `BigintHelper`,
  `JsBigInt`, `Powers`, `Sums` and `Wrappers` hold what several modules use.

`dafny verify dfyconfig.toml` checks everything.

## Where the code does not do what its name or comment says

Each is stated as a theorem, with the condition under which the code does meet the property.

- `bigIntMin` returns the maximum (`BigIntMinIsMinExactlyOnConstantLists`).
- Starting a taker while another is held forgets the first one's locked funds; ending a filled taker removes the
  order the request names, which need not be the held one (`LedgerKeptExactly`; a run that reaches both:
  `BothMistakesReached`).
- An account registered under the key 0 counts as absent, also when it has open orders (`WellFormedKept`).
- A transaction can be refused after it has settled and recorded: its chunks are encoded and its key row is looked
  up last, and an offset or a bought amount of 0 counts as missing there. Starting or filling the order that was
  placed by the latest transaction is refused so. The trace of the block is then out of step with its log for good
  (`TracedKeptExactly`, `TraceOverRuns`; runs that do it: `StartRefusedLate`, `ExchangeRefusedLate`).
- An order for an amount with 32 or more zeros at its end is settled, and then refused because its decimal code does
  not fit (`RoundOrderRefusedLate`).
- A failed prover job makes the next job store the failed block's proof with its own block (`FailedJobMisproves`,
  `PipelineKeptExactly`; a run that reaches a state for it: `TwoJobsReached`). A producer that restarts
  queues every waiting block twice, and hands the operator all its blocks again (`RestartHandsOutAgain`). When the
  first of them comes up for the second time and a later block is executed by then, it gets that block's proof
  (`RestartMisproves`; a run from a fresh start: `RestartMisprovesFromStart`). The prover's side of the invariant
  survives a restart exactly when no job waits (`ProverSideKeptExactly`).
- The two MiMC7 implementations differ on negative inputs (`OneOfTwoDiffers`). Before a call one can tell that they
  agree if the key is not negative and the input not below minus the key, or if the key is at least p - 1, or not
  negative and at least p - 1 less the last round constant; and that they differ, up to a plain hash of 0, if the key
  is at most 1 - p (`HashAgrees`, `KeyDecides`). For lists the last element tells in the same way (`LastDecides`), and
  they agree if none is negative but perhaps a first one that the key makes up for (`MultiHashAgrees`). What remains
  are inputs below minus a smaller key that is not negative, and keys strictly between 1 - p and 0: there the answer
  is the sign of the last round's value plus the key, and no condition on the input alone is given.
  `HashAgreesExactly` says how the result shows it.
- The binary amount code overflows 48 bits from 2^124 on; the decimal one is not injective once the stripped amount
  needs more than 35 bits (`AmountV2Fits`, `V3DecodesExactly`, `AmountV3Collides`).
- Byte and limb codecs are not faithful on most negative numbers, and two's complement text is refused or wrong on
  most values from the sign bit on (`BigintBytesExact`, `TupleRecombines`, `BytesReadBackExactly`).
- The test for an even number of hex digits looks at the length of a match array, which is always 2, so it never
  fires (`HexStringToUint8Array`).

## How values are modelled

- Big integers are `int`; `/` and `%` of JavaScript truncate toward zero (`JsBigInt`), shifts are multiplication and
  flooring division by powers of two, and a bit mask `value & (2^k - 1)` is the mathematical remainder.
- The `mod` of the ethers big number library in `mimc-hash.ts` is taken as the mathematical remainder.
- In the sequencer a root is named by the number of updates of its tree: it changes with every update and only then.
  The database is the value field `store`; calls that are not awaited finish in program order.
- A transaction's last steps read more than its request: the remaining columns, whether its public key row is there
  (a flag per transaction, as key rows are written elsewhere), and whether the packing library takes a value into so
  many bits (`packs`, any predicate). The request type always packs, and so do the chunks of a taker's end, which
  hold nothing else; columns that cannot be null are there. The hashed key of a registration is an optional field of
  the request, none standing for a missing account row.
- Merkle hashes are any two-argument function on any type; leaf ids are below 2^height, as the callers' are.
- The auction getters' undefined list is `None`; an average over a started list with matched amount 0 divides by
  zero in the source and is `None` here.
- The block table is the list of its rows in key order. A dispatch, a job and a seal are each one step, the prover
  takes one job at a time from the front, and a job that throws is not tried again.
- The static MiMC7 table is an object shared by all instances.
- `ProRata` has amounts, rates and rests as reals, as its source has decimals; where it is compared with the other
  engine the orders are whole numbers, as they are there.
- Lemmas carry `{:induction false}` wherever Dafny would otherwise add an induction hypothesis of its own; their
  bodies are their proofs.

## Model

| member | source | states |
|---|---|---|
| `AuctionGuarantees.NoOrderOverfilled` | backend/ts-sdk/src/domain/lib/ts-auction-engine.ts:51-60 | After a round of fresh orders with amounts that are not negative, every borrower's and every lender's matched amount is between 0 and its amount |
| `AuctionGuarantees.RoundConserves` | backend/ts-sdk/src/domain/lib/ts-auction-engine.ts:207-280 | What the borrowers were matched in all is what the lenders were matched in all |
| `AuctionGuarantees.RoundLendsHalfOfAnyPlan` | backend/ts-sdk/src/domain/lib/ts-auction-engine.ts:207-280 | What the order objects were matched for in all is at least half of what any plan for them lends that respects their rates and amounts |
| `AuctionGuarantees.RecordOnExactlyTwoLists` | backend/ts-sdk/src/domain/lib/ts-auction-engine.ts:229-235 | Every record is the same object in exactly one borrower's list and exactly one lender's list, and neither list holds any record twice |
| `AuctionGuarantees.BorrowerPaysClearingRate` | backend/ts-sdk/src/domain/lib/ts-auction-engine.ts:260-265 | All records of a borrower carry one rate, that of the dearest lender it visited, at most its own limit, and its average is exactly that rate although the records were changed after they were listed |
| `AuctionGuarantees.LenderEarnsItsAsk` | backend/ts-sdk/src/domain/lib/ts-auction-engine.ts:62-72 | A lender's floor-divided average over its records is never below the rate it asked for |
| `AuctionGuarantees.LastVisitedIsDearest` | backend/ts-sdk/src/domain/lib/ts-auction-engine.ts:214-222 | The lenders a borrower visits are within its limit and the last one visited is the dearest |
| `AuctionPriority.ServedByTime` | backend/ts-sdk/src/domain/lib/ts-auction-engine.ts:208-208 | In the order of service the time of creation never falls, borrowers of one time keep their list order, and each is served as often as it is listed |
| `AuctionPriority.LendersByRate` | backend/ts-sdk/src/domain/lib/ts-auction-engine.ts:191-205 | The lenders stand by the rate they ask for, those of one rate in list order |
| `AuctionPriority.EarlierComesFirst` | backend/ts-sdk/src/domain/lib/ts-auction-engine.ts:208-266 | After a round, where a borrower created earlier ended short, one created later was lent nothing by any lender whose rate the earlier one accepts, and nothing at all if its own limit is no higher |
| `AuctionPriority.EveryRecord` | backend/ts-sdk/src/domain/lib/ts-auction-engine.ts:211-266 | After a round, record by record: which lenders a borrower lists, that the record names the lender, its amount told by the records before it of that borrower and of that lender, and that it carries the rate of the last lender the borrower lists |
| `AuctionPriority.ReturnedExactly` | backend/ts-sdk/src/domain/lib/ts-auction-engine.ts:135-142 | The list returned for either side has by ascending id exactly the orders of that side whose matched amount is above 0, each once for every time it was given |
| `AuctionPriority.AverageIs` | backend/ts-sdk/src/domain/lib/ts-auction-engine.ts:62-72 | An order's rate is the mean of its records' rates weighted by their amounts, rounded down: r * total <= the sum of rate times amount over all records < (r + 1) * total |
| `AuctionPriority.NoAverage` | backend/ts-sdk/src/domain/lib/ts-auction-engine.ts:62-66 | Before a first record the rate is 0, and with records that total 0 there is none |
| `AuctionPriority.LenderAverageIs` | backend/ts-sdk/src/domain/lib/ts-auction-engine.ts:62-72 | After a round a lender's rate is, rounded down, what all borrowers pay it at the rate each of them clears at, divided by all it lent |
| `AuctionMatching.NoAgreeablePairLeft` | backend/ts-sdk/src/domain/lib/ts-auction-engine.ts:211-266 | When matching ends no borrower still short and lender with something left agree on a rate |
| `AuctionMatching.CheaperLendersFirst` | backend/ts-sdk/src/domain/lib/ts-auction-engine.ts:215-237 | A lender gives something to a borrower only when every lender before it in rate order is empty afterwards and stays so |
| `AuctionMatching.ShortLeavesNothing` | backend/ts-sdk/src/domain/lib/ts-auction-engine.ts:211-237 | Once a borrower has ended short, no borrower served later gets anything from a lender whose rate it accepted |
| `AuctionCells.EveryCell` | backend/ts-sdk/src/domain/lib/ts-auction-engine.ts:211-237 | The whole matching cell by cell: a borrower visits a lender exactly if it accepts its rate and is still short after the lenders before it, and takes the lesser of what it is short of and what the borrowers before it left there |
| `AuctionMatching.LendersFormStaircase` | backend/ts-sdk/src/domain/lib/ts-auction-engine.ts:211-237 | After every borrower, in service order, the lenders are an emptied prefix, one partly used lender and an untouched rest |
| `AuctionMatching.BorrowerNotOverfilled` | backend/ts-sdk/src/domain/lib/ts-auction-engine.ts:213-237 | No borrower receives more than its amount or a negative record |
| `AuctionMatching.LenderNotOverfilled` | backend/ts-sdk/src/domain/lib/ts-auction-engine.ts:227-236 | No lender gives more than its amount |
| `AuctionMatching.Conserves` | backend/ts-sdk/src/domain/lib/ts-auction-engine.ts:207-280 | The sum of the borrowers' fills equals the sum of the lenders' fills |
| `AuctionOptimality.AtLeastHalfOfAnyPlan` | backend/ts-sdk/src/domain/lib/ts-auction-engine.ts:207-280 | The matched volume is at least half that of any matching of the same orders that respects rates and amounts |
| `AuctionOptimality.HalfIsReached` | backend/ts-sdk/src/domain/lib/ts-auction-engine.ts:207-280 | The factor of one half cannot be improved: for every size there are orders on which it is met exactly |
| `AuctionEngine.BucketsAreStableSort` | backend/ts-sdk/src/domain/lib/ts-auction-engine.ts:191-205 | Concatenating the rate buckets in list order is the stable sort of the lenders by rate |
| `AuctionEngine.GetLendOrderInterestMap` | backend/ts-sdk/src/domain/lib/ts-auction-engine.ts:191-205 | The buckets hold exactly the lenders of each rate in list order, and the rate list is the strictly ascending list of the bucket keys |
| `AuctionEngine.VisitBucket` | backend/ts-sdk/src/domain/lib/ts-auction-engine.ts:222-237 | One bucket continues the greedy walk over the sorted lenders record by record, and stops inside the bucket only when nothing more is needed |
| `AuctionEngine.VisitLenders` | backend/ts-sdk/src/domain/lib/ts-auction-engine.ts:214-259 | The nested loops over rates and buckets make exactly the records of one greedy scan of the sorted lenders |
| `AuctionEngine.AssignClearingRate` | backend/ts-sdk/src/domain/lib/ts-auction-engine.ts:260-264 | Every record of the list ends with the largest of the rates they had |
| `AuctionEngine.ServeBorrower` | backend/ts-sdk/src/domain/lib/ts-auction-engine.ts:211-266 | One borrower's turn lists its records with it and with its lenders, all at one rate, and changes no older record |
| `AuctionEngine.GetMatchedOrders` | backend/ts-sdk/src/domain/lib/ts-auction-engine.ts:207-280 | The round leaves the orders in the state of the greedy scan, and returns those of either side with a matched amount above 0 |
| `AuctionEngine.AuctionOrder.AddMatchedDetail` | backend/ts-sdk/src/domain/lib/ts-auction-engine.ts:90-100 | A record is appended to the order's list, which is started if there was none |
| `AuctionEngine.AuctionOrder.AddMatchedDetails` | backend/ts-sdk/src/domain/lib/ts-auction-engine.ts:90-100 | A list of records is appended in order |
| `AuctionEngine.Clone` | backend/ts-sdk/src/domain/lib/ts-auction-engine.ts:117-119 | Cloning gives new, distinct orders with the same terms |
| `AuctionEngine.AuctionEngine.AddOrder` | backend/ts-sdk/src/domain/lib/ts-auction-engine.ts:165-189 | An order joins the end of the list of its kind; any other kind is refused and changes nothing |
| `AuctionEngine.AuctionEngine.DoMatchAuctionOrders` | backend/ts-sdk/src/domain/lib/ts-auction-engine.ts:117-147 | The round runs on clones, the engine's own orders are unchanged, and both results are sorted by id |
| `StableSort.SortIsStable` | backend/ts-sdk/src/domain/lib/ts-auction-engine.ts:208-208 | The specification's sort is sorted and keeps equal keys in their order |
| `StableSort.StableSortUnique` | backend/ts-sdk/src/domain/lib/ts-auction-engine.ts:201-203 | Sortedness and order within each key determine the list |
| `ProRata.SharesAddUp` | backend/ts-sdk/src/domain/lib/auction-engine.ts:231-248 | If division errs by at most e, the shares of a bucket differ from the amount taken by at most bucket size times that amount times e |
| `ProRata.ExactShares` | backend/ts-sdk/src/domain/lib/auction-engine.ts:238-248 | With exact division every lender of a bucket gives the same fraction of its rest, none more than its rest, and the shares add up to the amount taken |
| `ProRata.RecordsAddUp` | backend/ts-sdk/src/domain/lib/auction-engine.ts:221-251 | The same bound over a borrower's whole way through the buckets, whatever the rests are |
| `ProRata.ServeFills` | backend/ts-sdk/src/domain/lib/auction-engine.ts:221-251 | With exact division a borrower receives the lesser of its need and all there is at agreeable rates, and no lender falls below 0 |
| `ProRata.ServeDrains` | backend/ts-sdk/src/domain/lib/auction-engine.ts:221-251 | With exact division what a borrower takes drains the supply from its cheap end, at every rate |
| `ProRata.WalkDrains` | backend/ts-sdk/src/domain/lib/ts-auction-engine.ts:214-259 | The greedy walk of the other engine drains the same supply in the same way |
| `ProRata.EnginesAgree` | backend/ts-sdk/src/domain/lib/auction-engine.ts:216-270 | With exact division the two engines have, after every borrower, the same supply left at every rate |
| `ProRata.EnginesFillAlike` | backend/ts-sdk/src/domain/lib/auction-engine.ts:216-270 | With exact division the two engines match every borrower for the same amount |
| `ProRata.OverfillStaysSmall` | backend/ts-sdk/src/domain/lib/auction-engine.ts:220-251 | If division errs by at most e, then after any borrowers no lender is overfilled by more than e times all they asked for |
| `ProRata.SuppliesStayClose` | backend/ts-sdk/src/domain/lib/auction-engine.ts:216-270 | With such a division the supply at every rate stays, after every borrower, within n e times all that was asked for of the exact engine's and so of the other engine's, n being the size of the largest bucket |
| `ProRata.FillsStayClose` | backend/ts-sdk/src/domain/lib/auction-engine.ts:216-270 | What a borrower receives from the two engines differs by no more than n e times all that was asked for before it and twice what it asks for itself |
| `ProRata.SplitBucket` | backend/ts-sdk/src/domain/lib/auction-engine.ts:237-247 | The loop over a bucket takes each lender's proportional share, computed from its own rest before the share |
| `ProRata.ServeBorrower` | backend/ts-sdk/src/domain/lib/auction-engine.ts:224-250 | The loop over the rates, with its early exit and its skipped buckets, is the walk that the laws are about |
| `ProRata.GetMatchedOrders` | backend/ts-sdk/src/domain/lib/auction-engine.ts:220-258 | Borrowers are served one after the other on what those before left |
| `SettlementLaws.BalancesMove` | backend/ts-sequencer/src/infrastructure/sequencer.processor.ts:891-1319 | What a request bought arrives at the order's own sender in the bought token, and what it sold leaves what that sender has locked of the sold one, both on one leaf when the tokens coincide; deposits, withdrawals, placements and cancellations move the acting account's balance of their token; every other balance of every account stays |
| `SettlementLaws.BalancesOverRuns` | backend/ts-sequencer/src/infrastructure/sequencer.processor.ts:891-1319 | Over a run in which no trading account is registered again under the key 0, every balance is what its accepted requests moved, and refused ones move nothing |
| `SettlementLaws.NonceMoves` | backend/ts-sequencer/src/infrastructure/sequencer.processor.ts:1495-1504 | Placing and withdrawing raise the acting account's nonce by 1, registering sets it to 0, and no other request and no other account's nonce moves |
| `SettlementLaws.NonceCounts` | backend/ts-sequencer/src/infrastructure/sequencer.processor.ts:911-918 | Over a run in which it is not registered again, an account's nonce counts its accepted placements and withdrawals |
| `SettlementLaws.AccountsMove` | backend/ts-sequencer/src/infrastructure/sequencer.processor.ts:220-246 | An account keeps its key and is stored under the root its token tree has after the request; a registration stores it afresh; every other account leaf stays as it was |
| `SettlementLaws.RootsMove` | backend/ts-sequencer/src/infrastructure/sequencer.processor.ts:220-246 | How often each request updates the account tree, the order tree and every account's token tree |
| `SettlementLaws.OrdersMove` | backend/ts-sequencer/src/infrastructure/sequencer.processor.ts:734-781 | A placed order stands under the next id with what was asked for and nothing filled; a started or cancelled one leaves a blank; a fill adds exactly what was sold and bought and leaves a blank once all is sold; a taker that is not sold out comes back grown; no other leaf changes |
| `SettlementLaws.RefusedExactly` | backend/ts-sequencer/src/infrastructure/sequencer.processor.ts:891-1319 | Which requests a lookup refuses, with which error, told by the stored leaves; a refused one leaves the state as it was |
| `LockLedger.LedgerKeptExactly` | backend/ts-sequencer/src/infrastructure/sequencer.processor.ts:891-1319 | From a state where every locked balance is what is unsold on open and held orders, a request keeps that exactly unless it starts a second taker over one that is still unsold, or ends a filled taker naming another unsold order |
| `LockLedger.BothMistakesReached` | backend/ts-sequencer/src/infrastructure/sequencer.processor.ts:973-1242 | A run from the empty state after which the ledger holds and either mistake can be made, and breaks it |
| `LockLedger.RequestGap` | backend/ts-sequencer/src/infrastructure/sequencer.processor.ts:891-1319 | By how much each request of any kind moves a locked balance away from the unsold amounts |
| `LockLedger.WellFormedKept` | backend/ts-sequencer/src/infrastructure/sequencer.processor.ts:734-781 | Leaves stay under their own ids below the next id, senders stay registered and the held order's leaf stays empty, whatever request succeeds or fails, exactly unless an account that stands behind an open or the held order is registered again under the key 0, which counts as absent |
| `LockLedger.LedgerOverRuns` | backend/ts-sequencer/src/infrastructure/sequencer.processor.ts:891-1319 | In every state of every run without those two mistakes, and without a trading account registered again under the key 0, locked funds are what is unsold |
| `LockLedger.GenesisHolds` | backend/ts-sequencer/src/infrastructure/sequencer.processor.ts:973-973 | It holds of the empty state |
| `LockLedger.LockedNeverNegative` | backend/ts-sequencer/src/infrastructure/sequencer.processor.ts:1086-1091 | When fills stay within what orders have left, no locked balance is ever negative |
| `LockLedger.NothingOversoldKept` | backend/ts-sequencer/src/infrastructure/sequencer.processor.ts:1100-1113 | When a fill stays within what its order has left, no order is ever oversold |
| `Conservation.RequestTotal` | backend/ts-sequencer/src/infrastructure/sequencer.processor.ts:891-1242 | What any request, successful or refused, does to a token's total over all accounts: deposits, withdrawals and the leg of a trade that is still in flight |
| `Conservation.TotalOverRuns` | backend/ts-sequencer/src/infrastructure/sequencer.processor.ts:891-1242 | In every state of every run a token's total is deposits minus withdrawals plus what is in flight |
| `Conservation.RoundInFlight` | backend/ts-sequencer/src/infrastructure/sequencer.processor.ts:974-1242 | What a whole round of one taker and any makers leaves in flight, token by token |
| `Conservation.RoundBalancesExactly` | backend/ts-sequencer/src/infrastructure/sequencer.processor.ts:974-1242 | A round leaves every token's total as it was exactly when the taker sold what the makers bought and bought what they sold; for a taker that trades a token for itself exactly when the two differences are equal |
| `Conservation.CancelUndoesPlace` | backend/ts-sequencer/src/infrastructure/sequencer.processor.ts:1244-1319 | Cancelling an order right after placing it restores every balance and empties its leaf |
| `WitnessTrace.TraceOverRuns` | backend/ts-sequencer/src/infrastructure/sequencer.processor.ts:249-291 | After any transactions of a block that do not register a trading account again under the key 0, refused ones included, all entries are whole and chained root by root; there is one order entry per logged request and one more for each request refused after its records were made; and the trace is in step with the log exactly when no request was refused that late |
| `WitnessTrace.TracedKeptExactly` | backend/ts-sequencer/src/infrastructure/sequencer.processor.ts:891-1319 | From a trace in step, a transaction keeps it in step exactly when it fails one of its lookups or gets past its last steps as well: its chunks can be encoded, which for a fill or a start needs an order that is not the latest transaction and for a fill a maker that buys something, and its public key row is there |
| `WitnessTrace.SoundKept` | backend/ts-sequencer/src/infrastructure/sequencer.processor.ts:249-291 | However a transaction ends, late refusals included, the block's entries stay whole and chained to the roots as they are |
| `WitnessTrace.StartRefusedLate` | backend/ts-sdk/src/domain/lib/ts-rollup/ts-tx-helper.ts:238-241 | From an empty state, starting the order that was placed just before is refused when the order has left the tree; an order entry is left behind that no log goes with |
| `WitnessTrace.ExchangeRefusedLate` | backend/ts-sdk/src/domain/lib/ts-rollup/ts-tx-helper.ts:250-256 | From an empty state, filling a maker that was placed just before and buys nothing is refused when its funds have been taken; the trace is out of step |
| `WitnessTrace.EntriesChain` | backend/ts-sequencer/src/infrastructure/sequencer.processor.ts:891-1319 | The entries of each kind of request lead from the roots before it to the roots after it |
| `WitnessTrace.EarlyRefusalTouchesNothing` | backend/ts-sequencer/src/infrastructure/sequencer.processor.ts:891-1319 | A request refused by one of its lookups has changed no balance, no order and no root |
| `WitnessTrace.TwoRecordsArePair` | backend/ts-sequencer/src/infrastructure/sequencer.processor.ts:596-622 | Two touches recorded one after the other share one id pair and leave whole entries behind |
| `WitnessTrace.RecordFlow` | backend/ts-sequencer/src/infrastructure/sequencer.processor.ts:531-594 | Opening and closing an account or token entry adds exactly one pair of roots, the one before and the one after, and leaves the earlier pairs alone |
| `WitnessTrace.OneRecordIsOne` | backend/ts-sequencer/src/infrastructure/sequencer.processor.ts:698-732 | Opening and closing an order entry adds that one entry and nothing else |
| `WitnessTrace.TradeBooks` | backend/ts-sequencer/src/infrastructure/sequencer.processor.ts:1074-1097 | Both legs of a trade inside one account entry make up two whole account and two whole token entries |
| `WitnessTrace.BalanceBooks` | backend/ts-sequencer/src/infrastructure/sequencer.processor.ts:914-949 | The entries of a request that changes one balance make up the entries of the whole request |
| `TraceLaws.AccountEntriesRead` | backend/ts-sequencer/src/infrastructure/sequencer.processor.ts:551-594 | Both account entries are the acting account's: the first holds its leaf before and after the request over the account roots before and after, the second the leaf after, twice |
| `TraceLaws.TokenEntriesRead` | backend/ts-sequencer/src/infrastructure/sequencer.processor.ts:486-549 | Of a request that moves one balance, the first token entry holds what a reader of the state sees of that balance and of the account's token root before and after, the second what it sees after, twice |
| `TraceLaws.TradeEntriesRead` | backend/ts-sequencer/src/infrastructure/sequencer.processor.ts:1074-1097 | Of a trade, the first token entry shows the bought amount arrive and the second the sold amount leave, each one update of the trader's token tree further |
| `TraceLaws.OrderEntryReads` | backend/ts-sequencer/src/infrastructure/sequencer.processor.ts:698-732 | The order entry holds the order's leaf before and after the request over the order roots before and after |
| `TraceLaws.RegistrationReads` | backend/ts-sequencer/src/infrastructure/sequencer.processor.ts:1409-1483 | A registration is recorded from an empty leaf, or from what stood there, to the registered one, and moves no root |
| `TraceLaws.NoopReads` | backend/ts-sequencer/src/infrastructure/sequencer.processor.ts:1321-1348 | A no-op reads account, token and order 0, twice the same |
| `TraceLaws.EntriesInOrder` | backend/ts-sequencer/src/infrastructure/sequencer.processor.ts:486-732 | After any transactions of a block its books hold exactly the entries of those that got past their lookups, in the order in which these came: ids in pairs, contents and roots at twice the place and the one after it, one order entry each |
| `TraceLaws.LogInOrder` | backend/ts-sequencer/src/infrastructure/sequencer.processor.ts:293-297 | A block starts with an empty log, and a transaction adds its request to it exactly when it is not refused, its number following those of earlier blocks and those logged |
| `TraceLaws.RefusalsRead` | backend/ts-sequencer/src/infrastructure/sequencer.processor.ts:822-889 | A cancel request is an unknown type, a failed lookup its error, and neither changes what is stored; what gets past the lookups can only be refused late, and has changed what is stored then too |
| `TraceLaws.EncodableExactly` | backend/ts-sdk/src/domain/lib/ts-rollup/ts-tx-helper.ts:134-296 | Which requests can be encoded by a packer that takes a number of n bits exactly when it is below 2^n: the width of every field, and of a decimal amount m * 10^e, m not ending in 0, that m + e * 2^35 is below 2^40 |
| `TraceLaws.EndsLateExactly` | backend/ts-sequencer/src/infrastructure/sequencer.processor.ts:783-820 | How a transaction past its lookups ends: not encoded when a field is too narrow, when the order of a start or a fill is the latest transaction's or 2^32 transactions back, or when a maker buys nothing; then refused for a missing public key row, which registrations, deposits and no-ops do not need; accepted otherwise |
| `TraceLaws.RoundOrderRefusedLate` | backend/ts-sdk/src/domain/lib/ts-rollup/ts-tx-helper.ts:204-220 | An order for an amount with 32 or more zeros at its end is settled and recorded, and then refused |
| `Sequencer.SequencerConsumer.UpdateAccountToken` | backend/ts-sequencer/src/infrastructure/sequencer.processor.ts:220-236 | Amounts are added to the stored balance, and the token root and the account root advance |
| `Sequencer.SequencerConsumer.UpdateAccountNonce` | backend/ts-sequencer/src/infrastructure/sequencer.processor.ts:237-246 | One account has the new nonce and keeps its key and token root; no other account, no balance and no order changes, and the account root advances while the order root does not |
| `Sequencer.SequencerConsumer.AddObsOrder` | backend/ts-sequencer/src/infrastructure/sequencer.processor.ts:734-755 | A new order is stored under its id and the next id advances |
| `Sequencer.SequencerConsumer.RemoveObsOrder` | backend/ts-sequencer/src/infrastructure/sequencer.processor.ts:756-777 | A leaf that holds an order is emptied; removing an absent or empty one is refused |
| `Sequencer.SequencerConsumer.UpdateObsOrder` | backend/ts-sequencer/src/infrastructure/sequencer.processor.ts:778-781 | The leaf read back under the order's id is that order, every other leaf, account and balance reads as before, and only the order root advances |
| `Sequencer.SequencerConsumer.TokenBeforeUpdate` | backend/ts-sequencer/src/infrastructure/sequencer.processor.ts:486-530 | A token entry is opened with the leaf and root before the touch, or the default ones for an absent account |
| `Sequencer.SequencerConsumer.AccountBeforeUpdate` | backend/ts-sequencer/src/infrastructure/sequencer.processor.ts:551-584 | An account entry is opened with the leaf and root before the touch |
| `Sequencer.SequencerConsumer.AccountAndTokenBeforeUpdate` | backend/ts-sequencer/src/infrastructure/sequencer.processor.ts:596-671 | Both entries are opened together |
| `Sequencer.SequencerConsumer.AccountAndTokenAfterUpdate` | backend/ts-sequencer/src/infrastructure/sequencer.processor.ts:673-696 | Both entries are closed, the token flow at the position of the last account flow, which is its own last position |
| `Sequencer.SequencerConsumer.DoSecondLimitOrder` | backend/ts-sequencer/src/infrastructure/sequencer.processor.ts:891-971 | Placing settles as specified, books exactly its entries and is logged; refused by a lookup it changes and books nothing, refused by its last steps it has settled and booked but not logged |
| `Sequencer.SequencerConsumer.DoSecondLimitStart` | backend/ts-sequencer/src/infrastructure/sequencer.processor.ts:973-1039 | Starting a round takes the taker's order out of the tree and holds it, also when it is refused late for an offset of 0 or a missing key row |
| `Sequencer.SequencerConsumer.DoSecondLimitExchange` | backend/ts-sequencer/src/infrastructure/sequencer.processor.ts:1040-1138 | A maker's fill settles both legs and rewrites or empties its leaf, also when it is refused late |
| `Sequencer.SequencerConsumer.DoSecondLimitEnd` | backend/ts-sequencer/src/infrastructure/sequencer.processor.ts:1139-1242 | The taker settles both legs and is put back unless all is sold, also when its key row is missing |
| `Sequencer.SequencerConsumer.DoCancelOrder` | backend/ts-sequencer/src/infrastructure/sequencer.processor.ts:1244-1319 | Cancelling refunds what is unsold and empties the leaf, also when it is refused late |
| `Sequencer.SequencerConsumer.DoNoop` | backend/ts-sequencer/src/infrastructure/sequencer.processor.ts:1321-1348 | A no-op books entries around nothing |
| `Sequencer.SequencerConsumer.DoDeposit` | backend/ts-sequencer/src/infrastructure/sequencer.processor.ts:1349-1408 | A deposit credits a registered account, also when its chunks cannot be encoded |
| `Sequencer.SequencerConsumer.DoRegister` | backend/ts-sequencer/src/infrastructure/sequencer.processor.ts:1409-1483 | A registration stores the account under its hashed key; without an account row it is refused and nothing changes, and one refused by its encoding has been stored |
| `Sequencer.SequencerConsumer.DoWithdraw` | backend/ts-sequencer/src/infrastructure/sequencer.processor.ts:1484-1533 | A withdrawal debits the account and advances its nonce, also when it is refused late |
| `Sequencer.SequencerConsumer.StartRollup` | backend/ts-sequencer/src/infrastructure/sequencer.processor.ts:299-319 | An opened block starts its root flows with the roots as they are |
| `Sequencer.SequencerConsumer.DoTransaction` | backend/ts-sequencer/src/infrastructure/sequencer.processor.ts:822-889 | One transaction opens a block if none is open and extends it as specified, reporting which refusal ended it if any; a trace in step stays so exactly when that is neither of the two late ones |
| `MerkleSpec.RootIsMerkleRoot` | backend/ts-sdk/src/domain/lib/merkle-tree-dp.ts:27-43 | In a tree whose inner nodes are the hashes of their children the stored root is the root rebuilt from the leaves |
| `MerkleLaws.RootIsFullTree` | backend/ts-sdk/src/domain/lib/merkle-tree-dp.ts:27-43 | With hashes left standing as pairs, the root rebuilt from the leaves is the one full binary tree that has them from left to right |
| `MerkleSpec.LeavesDetermineNodes` | backend/ts-sdk/src/domain/lib/merkle-tree-dp.ts:27-39 | The leaves determine every node |
| `MerkleSpec.UpdatesCommute` | backend/ts-sdk/src/domain/lib/merkle-tree-dp.ts:63-79 | Updates of two different leaves give the same nodes in either order |
| `MerkleSpec.ProofFoldsToRoot` | backend/ts-sdk/src/domain/lib/merkle-tree-dp.ts:49-79 | A stored leaf folds up through its siblings, by the left and right rule of an update, to the root |
| `MerkleSpec.RootBinds` | backend/ts-sdk/src/domain/lib/merkle-tree-dp.ts:49-79 | Under an injective hash only the stored leaf and the stored siblings fold to the root from that place |
| `MerkleSpec.CollisionBreaksBinding` | backend/ts-sdk/src/domain/lib/merkle-tree-dp.ts:49-79 | Injectivity is needed: any collision of the hash gives a tree where a wrong leaf folds to the root |
| `MerkleSpec.RehashRepairs` | backend/ts-sdk/src/domain/lib/merkle-tree-dp.ts:63-79 | Rehashing the ancestors of a changed leaf against siblings taken before the change restores every inner node |
| `DenseMerkleTree.PathReplaced` | backend/ts-sdk/src/domain/lib/merkle-tree-dp.ts:63-79 | Replacing a leaf and rehashing its path gives the tree of the changed leaves, and no node off the path changes |
| `DenseMerkleTree.TsMerkleTree.constructor` | backend/ts-sdk/src/domain/lib/merkle-tree-dp.ts:9-25 | The tree holds the given leaves followed by default ones, with every inner node right |
| `DenseMerkleTree.TsMerkleTree.Parse` | backend/ts-sdk/src/domain/lib/merkle-tree-dp.ts:27-39 | The tree is filled with default leaves and hashed from the last inner node up |
| `DenseMerkleTree.TsMerkleTree.GetRoot` | backend/ts-sdk/src/domain/lib/merkle-tree-dp.ts:41-43 | The root read is the root rebuilt from the current leaves |
| `DenseMerkleTree.TsMerkleTree.GetLeaf` | backend/ts-sdk/src/domain/lib/merkle-tree-dp.ts:45-47 | The leaf read is the one last stored there |
| `DenseMerkleTree.TsMerkleTree.GetProof` | backend/ts-sdk/src/domain/lib/merkle-tree-dp.ts:49-61 | The siblings read fold the leaf up to the root, one per level |
| `DenseMerkleTree.TsMerkleTree.UpdateLeafNode` | backend/ts-sdk/src/domain/lib/merkle-tree-dp.ts:63-79 | An update replaces one leaf, keeps every inner node right and changes nothing off the path |
| `SparseMerkleTree.DefaultsAgreeWithDenseTree` | backend/common/ts-typeorm/src/common/tsMerkleTree.ts:41-50 | In a tree without updates every node of the dense array is the default hash of its level |
| `SparseMerkleTree.ProofIdsNameTheProof` | backend/common/ts-typeorm/src/common/tsMerkleTree.ts:23-36 | The ids listed are where the dense tree takes its siblings from, in order |
| `SparseMerkleTree.CoPathPartitionsLeaves` | backend/common/ts-typeorm/src/common/tsMerkleTree.ts:23-36 | The subtrees of the ids and the leaf itself cover every leaf position exactly once |
| `MerkleLaws.ProofIdsAt` | backend/common/ts-typeorm/src/common/tsMerkleTree.ts:23-36 | The j-th id is the other child of the leaf's ancestor j + 1 levels up |
| `SparseMerkleTree.TsMerkleTree.SetLevelDefaultHash` | backend/common/ts-typeorm/src/common/tsMerkleTree.ts:41-50 | The table holds for every level the hash of a subtree of default leaves |
| `SparseMerkleTree.TsMerkleTree.GetDefaultHashByLevel` | backend/common/ts-typeorm/src/common/tsMerkleTree.ts:57-67 | A level of the tree gives its default hash, any other is an error |
| `SparseMerkleTree.TsMerkleTree.GetLeafIdInTree` | backend/common/ts-typeorm/src/common/tsMerkleTree.ts:51-53 | A leaf's node id lies on the leaves' level of the tree exactly when the leaf is in range |
| `SparseMerkleTree.TsMerkleTree.GetProofIds` | backend/common/ts-typeorm/src/common/tsMerkleTree.ts:23-36 | The list has as many ids as the tree is high exactly when the leaf is in range |
| `MimcHash.MiMC7_91` | backend/ts-sdk/src/domain/lib/mimc-hash.ts:102-115 | The loop computes the plain hash, for any modulus and 91 round constants |
| `MimcHash.MultiMiMC7_91` | backend/ts-sdk/src/domain/lib/mimc-hash.ts:118-125 | The loop computes the plain hash of a list |
| `MimcReference.SeventhPower` | backend/ts-sdk/src/domain/lib/mimc-hash.ts:107-112 | One round raises to the seventh power, by an integer power defined by recursion |
| `MimcReference.PlainHashByRounds` | backend/ts-sdk/src/domain/lib/mimc-hash.ts:102-115 | One list of round values satisfies: each is the seventh power of the value before plus the key and the round's constant, of the input plus the key in the first round, reduced to 0 to p - 1; and the plain hash is its last value plus the key, reduced so |
| `MimcReference.HashByRounds` | backend/ts-sdk/src/domain/lib/mimc-hash-dp.ts:146-168 | The same of the hash with truncating remainders, each of which is in the residue class of what is reduced, below p in size and of its sign |
| `MimcReference.ListByElements` | backend/ts-sdk/src/domain/lib/mimc-hash-dp.ts:170-186 | The hash of a list with one more element is the hash of the element under the hash so far, with both added, reduced; of the empty list it is the key |
| `MimcHash.HashSame` | backend/ts-sdk/src/domain/lib/mimc-hash-dp.ts:146-168 | On any integers the truncating hash is the plain hash up to a multiple of the modulus, and both depend on their inputs only through residues |
| `MimcHash.MultiHashSame` | backend/ts-sdk/src/domain/lib/mimc-hash-dp.ts:170-186 | The same for lists |
| `MimcHash.HashAgrees` | backend/ts-sdk/src/domain/lib/mimc-hash-dp.ts:146-168 | With a key that is not negative the two return the same field element on every input that is not below minus the key, so on all field elements and on the negative inputs that the key makes up for |
| `MimcHash.MultiHashAgrees` | backend/ts-sdk/src/domain/lib/mimc-hash-dp.ts:170-186 | The same for lists none of whose elements is negative but perhaps the first, which the key has to make up for |
| `MimcHash.HashAgreesExactly` | backend/ts-sdk/src/domain/lib/mimc-hash-dp.ts:161-163 | On all integers the two differ exactly when the truncating one comes out negative, and then by the modulus: whoever has the result can tell and repair it |
| `MimcHash.KeyDecides` | backend/ts-sdk/src/domain/lib/mimc-hash-dp.ts:161-163 | With a key of at least p - 1, or one that is not negative and at least p - 1 less the last round constant, the two agree on every input; with one of at most 1 - p they differ on every input whose plain hash is not 0, and only on those |
| `MimcHash.LastDecides` | backend/ts-sdk/src/domain/lib/mimc-hash-dp.ts:170-186 | For lists the last element decides in the same way: from 2p - 2 up, or with the key from p - 1 up for a single element, the two agree, and from the negative of that down they differ unless the plain hash is 0 |
| `MimcHash.OneOfTwoDiffers` | backend/ts-sdk/src/domain/lib/mimc-hash-dp.ts:146-186 | For every modulus above 1 and all round constants, with the key 1 - p, the hashes of 0 or the hashes of the list of 0 differ |
| `MimcHash.InUse` | backend/ts-sdk/src/domain/lib/mimc-hash.ts:5-98 | The field in use has 91 round constants and a modulus above 1, so the statements apply to it |
| `DecimalKeys.JoinInjective` | backend/ts-sdk/src/domain/lib/mimc-hash-dp.ts:106-110 | Different lists of integers have different comma-joined texts |
| `NumberText.ReadDigits` | backend/ts-sdk/src/domain/lib/helper.ts:162-166 | Reading the text of a number in any base gives the number back, so texts of numbers are different for different numbers |
| `MimcCache.TextIsHash` | backend/ts-sdk/src/domain/lib/mimc-hash-dp.ts:106-119 | A number found under a list's text is the hash of that very list |
| `MimcCache.DpMimcCache.GetCache` | backend/ts-sdk/src/domain/lib/mimc-hash-dp.ts:106-119 | Looking up gives what is stored under that key, if anything |
| `MimcCache.DpMimcCache.SetCache` | backend/ts-sdk/src/domain/lib/mimc-hash-dp.ts:121-136 | The table becomes the one with that entry put into it, and stays right |
| `MimcCache.PutSetsOne` | backend/ts-sdk/src/domain/lib/mimc-hash-dp.ts:121-136 | Putting an entry sets that one, whether or not its key had a table before, and leaves every other as it was |
| `MimcCache.MiMC7.HashOne` | backend/ts-sdk/src/domain/lib/mimc-hash-dp.ts:146-168 | Cached or not, and with a remembered 0 computed again, the result is the uncached hash; an instance that caches has it in the table afterwards and changes no other entry, one that does not changes nothing |
| `MimcCache.MiMC7.HashMany` | backend/ts-sdk/src/domain/lib/mimc-hash-dp.ts:170-186 | The same for lists: a list that is found leaves the table as it was; any other stores the hash of each element under the hash of those before it, then its own, and nothing else |
| `MimcCache.StoredExactly` | backend/ts-sdk/src/domain/lib/mimc-hash-dp.ts:170-186 | After the elements of a list have been hashed, the entries of each of them under the hash of those before it hold the hash of just that, and every other entry is what it was |
| `MimcCache.Replay` | backend/ts-sdk/src/domain/lib/mimc-hash-dp.ts:99-186 | After any history of calls on any instances, caching or not, every result is that of the uncached hash, and that of the plain one where no input is negative but perhaps a first one that the key makes up for |
| `BlockPipeline.PipelineKeptExactly` | backend/ts-core/src/producer.service.ts:109-132 | Good means: rows ascend, a confirmed block holds its own proof and lies below every executed one, executed ones have data, and both queues are the blocks up to their cursors in order. An event keeps Good exactly unless it seals a block at or below the cursor, below a confirmed block or without data, fails a job, or restarts the producer when a job waits or one was ever handed to the operator |
| `BlockPipeline.TwoJobsReached` | backend/ts-core/src/producer.service.ts:109-132 | Two blocks opened, sealed and dispatched from a fresh start lead to a good state with two waiting jobs, as the failed-job theorem needs |
| `BlockPipeline.ProverSideKeptExactly` | backend/ts-core/src/producer.service.ts:109-132 | What Good says about the table and the waiting jobs alone survives a restart exactly when no job waits, and any other event as Good does |
| `BlockPipeline.RestartHandsOutAgain` | backend/ts-core/src/producer.service.ts:109-157 | From every good state a restart and a dispatch queue every waiting block a second time behind the first, and hand the operator every block it was ever handed a second time |
| `BlockPipeline.RestartMisproves` | backend/ts-prover/src/infrastructure/prover.processor.ts:33-67 | From every good state with a waiting job and an executed block behind the cursor, a restart, a dispatch and the jobs up to the first repeated one leave the first waiting block confirmed with the proof of the block that was behind |
| `BlockPipeline.RestartMisprovesFromStart` | backend/ts-prover/src/infrastructure/prover.processor.ts:33-67 | A run from a fresh start in which the producer restarts while block 1 waits and block 2 is sealed later: block 1 ends up confirmed with the proof of block 2, which stays unproved |
| `BlockPipeline.JobNamesLowest` | backend/ts-prover/src/infrastructure/prover.processor.ts:33-67 | While that holds the lowest executed block the prover finds is the block its job names |
| `BlockPipeline.ProcessKeeps` | backend/ts-prover/src/infrastructure/prover.processor.ts:33-67 | A successful job marks that one block with its own proof, and touches no other row |
| `BlockPipeline.EachProvedOnceInOrder` | backend/ts-prover/src/infrastructure/prover.processor.ts:33-67 | Over every run of such events each block is proved once, in ascending order, and what was proved is what is confirmed |
| `BlockPipeline.ProofsMatchBlocks` | backend/ts-prover/src/infrastructure/prover.processor.ts:33-67 | From a fresh start, in every reachable state, every confirmed block holds its own proof and the first waiting job names the lowest executed block |
| `BlockPipeline.DispatchThenDrain` | backend/ts-core/src/producer.service.ts:109-132 | One dispatch and as many jobs as there are executed blocks prove all of them in order and leave none |
| `BlockPipeline.FailedJobMisproves` | backend/ts-prover/src/infrastructure/prover.processor.ts:56-66 | After a job has failed the next one marks its own block with the failed block's proof, and the failed block stays executed below the cursor |
| `BlockPipeline.DispatchPendingKeeps` | backend/ts-core/src/producer.service.ts:109-132 | After a dispatch the waiting jobs are all executed blocks |
| `BlockPipeline.DispatchProvedKeeps` | backend/ts-core/src/producer.service.ts:134-157 | After a dispatch the operator was handed every confirmed block, once and in order |
| `BlockPipeline.Pipeline.DispatchPeningBlock` | backend/ts-core/src/producer.service.ts:110-132 | The loop appends the blocks found in order and moves the cursor to the last |
| `BlockPipeline.Pipeline.DispatchProvedBlock` | backend/ts-core/src/producer.service.ts:135-157 | The same for the operator's queue |
| `BlockPipeline.Pipeline.Process` | backend/ts-prover/src/infrastructure/prover.processor.ts:33-68 | A job is taken off the queue however it ends, and returns true exactly when there is an executed block, the first of them has its data and the proving tool succeeds; while the invariant holds, exactly when the tool succeeds |
| `PipelineLaws.OpenMoves` | backend/ts-sequencer/src/infrastructure/sequencer.processor.ts:299-319 | In any state: a new block gets a number after the last one, is being processed, and has neither data nor proof; nothing else changes |
| `PipelineLaws.SealMoves` | backend/ts-sequencer/src/infrastructure/sequencer.processor.ts:408-409 | In any state: sealing marks the block of that number executed, with its data, if it is being processed; every other row, the cursors and the queues stay |
| `PipelineLaws.ProcessMoves` | backend/ts-prover/src/infrastructure/prover.processor.ts:33-67 | In any state: a job leaves the queue however it ends; the rows of the number it names are confirmed with the proof of the first executed row exactly if there is one, it has its data and the proving tool succeeds; no other row and no cursor changes |
| `PipelineLaws.DispatchPendingMoves` | backend/ts-core/src/producer.service.ts:109-132 | With ascending numbers: a dispatch appends to the queue, in ascending order, exactly the numbers above the cursor of executed blocks and moves the cursor to the largest of them; nothing else changes |
| `PipelineLaws.DispatchProvedMoves` | backend/ts-core/src/producer.service.ts:134-157 | The same of confirmed blocks, the operator's jobs and the other cursor |
| `PipelineLaws.ListsUnique` | backend/ts-core/src/producer.service.ts:110-119 | There is only one ascending list of exactly those numbers, so the two statements above determine what is appended |
| `PipelineLaws.RestartMoves` | backend/ts-core/src/producer.service.ts:109-157 | In any state: a restart puts both cursors back to 0 and changes nothing else |
| `AmountCodes.AmountV2Decodes` | backend/ts-sdk/src/domain/lib/bigint-helper.ts:15-30 | The binary code of an amount below 2^127 denotes it without its dropped bits: at most the amount, off by less than one part in 2^41, exact below 2^42 |
| `AmountCodes.AmountV2Order` | backend/ts-sdk/src/domain/lib/bigint-helper.ts:15-30 | Codes follow the order of amounts, are equal for 0 and 1, and for other amounts exactly when these differ only in dropped bits |
| `AmountCodes.AmountV2Fits` | backend/ts-sdk/src/domain/lib/bigint-helper.ts:15-30 | The code takes at most 48 bits exactly for amounts of at most 124 bits, among all that are not negative |
| `AmountSigns.SignedExactly` | backend/ts-sdk/src/domain/lib/bigint-helper.ts:15-30 | On every integer the quotient by 2^127 is moved to bit 47, and what the amount exceeds it by is encoded below |
| `AmountSigns.CodeOfNegative` | backend/ts-sdk/src/domain/lib/bigint-helper.ts:18-28 | The minus of a negative fraction counts as one bit of its length, and the whole fraction is taken off the length field, aligned to it if it is short and rounded up if it is long |
| `AmountCodes.FieldsOf` | backend/ts-sdk/src/domain/lib/bigint-helper.ts:18-28 | The top field of a code is the bit length plus 3, and the field below holds the leading 41 bits after the first, aligned |
| `AmountCodes.CodeOfKept` | backend/ts-sdk/src/domain/lib/bigint-helper.ts:15-30 | What a code denotes has that code again |
| `AmountCodes.AmountToTxAmountV3_40bit` | backend/ts-sdk/src/domain/lib/bigint-helper.ts:32-42 | The zero-stripping loop ends on every number, negative ones included, and packs what is left with the count of zeros |
| `AmountCodes.StrippedWithZeros` | backend/ts-sdk/src/domain/lib/bigint-helper.ts:37-40 | What is left times ten to the count of zeros is the amount |
| `AmountCodes.StrippedUnique` | backend/ts-sdk/src/domain/lib/bigint-helper.ts:37-40 | No other number that does not end in zero is, with any count of zeros |
| `AmountSigns.DecimalCodeOf` | backend/ts-sdk/src/domain/lib/bigint-helper.ts:32-42 | A number that does not end in 0, with e zeros after it, has the code of that number plus e times 2^35, negative or not; 0 has the code 0 |
| `AmountCodes.V3DecodesExactly` | backend/ts-sdk/src/domain/lib/bigint-helper.ts:32-42 | The decimal code denotes the amount exactly when what is left of it has its place below the count field |
| `AmountCodes.AmountV3FitsExactly` | backend/ts-sdk/src/domain/lib/bigint-helper.ts:32-42 | Such a code takes 40 bits exactly for fewer than 32 zeros |
| `AmountCodes.AmountV3Injective` | backend/ts-sdk/src/domain/lib/bigint-helper.ts:32-42 | On such amounts no two share a code |
| `AmountCodes.AmountV3Collides` | backend/ts-sdk/src/domain/lib/bigint-helper.ts:32-42 | Beyond them two amounts can share one: 10 and 2^35 + 1 |
| `BigintHelper.BigIntMaxIsMax` | backend/ts-sdk/src/domain/lib/bigint-helper.ts:3-7 | The maximum is an element and no element is larger |
| `BigintHelper.BigIntMinIsMinExactlyOnConstantLists` | backend/ts-sdk/src/domain/lib/bigint-helper.ts:9-13 | bigIntMin compares the wrong way round: its result is a least element exactly when all elements are equal |
| `ByteCodecs.Bigint_to_Uint8Array` | backend/ts-sdk/src/domain/lib/helper.ts:29-36 | The downward loop stores the 32 bytes of repeated truncating division |
| `ByteCodecs.Uint8Array_to_bigint` | backend/ts-sdk/src/domain/lib/helper.ts:38-45 | The loop reads an array as the number its bytes denote |
| `ByteCodecs.BigintBytesExact` | backend/ts-sdk/src/domain/lib/helper.ts:29-45 | Reading the 32 bytes back gives the number modulo 2^256 exactly when it is not negative or a multiple of 2^248 |
| `ByteCodecs.BytesComeBack` | backend/ts-sdk/src/domain/lib/helper.ts:29-45 | Writing the number that an array denotes gives the array back, for any length |
| `ByteCodecs.BigintToTuple` | backend/ts-sdk/src/domain/lib/helper.ts:66-76 | The loop fills the four limbs with the remainders of repeated division |
| `ByteCodecs.LimbsCombine` | backend/ts-sdk/src/domain/lib/helper.ts:66-76 | The limbs of any number recombine to its truncating remainder |
| `DigitPlaces.LimbAt` | backend/ts-sdk/src/domain/lib/helper.ts:66-76 | Limb k is the truncating remainder of the number divided by the k-th power of the base, so the lowest comes first |
| `DigitPlaces.ByteAt` | backend/ts-sdk/src/domain/lib/helper.ts:29-36 | The byte with k bytes behind it is the number divided by 256 to the k, toward zero, modulo 256, so the highest comes first |
| `DigitPlaces.FirstByteCounts` | backend/ts-sdk/src/domain/lib/helper.ts:38-45 | A byte in front of n others counts for 256 to the n |
| `ByteCodecs.TupleRecombines` | backend/ts-sdk/src/domain/lib/helper.ts:66-76 | The four limbs recombine to the number modulo 2^256 exactly when it is not negative or a multiple of 2^256 |
| `ByteCodecs.HexStringToUint8Array` | backend/ts-sdk/src/domain/lib/helper.ts:149-160 | Text that is not hex is refused, other text gives its bytes pair by pair, an odd last digit being dropped |
| `ByteCodecs.BigintToUint8Array` | backend/ts-sdk/src/domain/lib/helper.ts:124-134 | Widths that are not positive multiples of 8 are refused, and so is a text that keeps a sign; else the bytes are those of the text |
| `ByteCodecs.BytesReadBackExactly` | backend/ts-sdk/src/domain/lib/helper.ts:124-171 | The bytes denote the value modulo 2^bits exactly for values below 2^(bits-1), however negative, and multiples of 2^(bits-1) |
| `ByteCodecs.SignedRoundTrip` | backend/ts-sdk/src/domain/lib/helper.ts:124-171 | In the signed range the value itself is read back |
| `ByteCodecs.HexTextRoundTrip` | backend/ts-sdk/src/domain/lib/helper.ts:143-160 | The hex text of an array parses back to the array |
| `HexText.ParsesExactly` | backend/ts-sdk/src/domain/lib/helper.ts:149-160 | A text stands for bytes exactly when, but for one prefix 0x, it is made of the characters 0-9, a-f and A-F, and two of them after the other write each byte in base 16; a last character may be left over |
| `HexText.CaseAndPrefix` | backend/ts-sdk/src/domain/lib/helper.ts:149-160 | Neither the case of the digits nor a prefix 0x matters, and a second prefix is refused |
| `HexText.AnyTextRoundTrip` | backend/ts-sdk/src/domain/lib/helper.ts:143-160 | The hex text of an array, its digits in any case and with or without a prefix, parses back to the array |
| `HexText.NoBytesExactly` | backend/ts-sdk/src/domain/lib/helper.ts:124-171 | A value has no bytes exactly when the width is not a positive multiple of 8, or when the value is from the sign bit on and, its bits from there up less those below, is under 2^(bits-4), so that its text keeps a sign |

## Left out

- AuctionEngine.GetMatchedOrders: the orders passed in are distinct and were never matched before, as those of its only caller are; matched lenders are returned in rate order, while the source lists them in the order of object keys, which its caller then sorts by id; `createdTime` ties keep their order.
- AuctionEngine.AuctionEngine.DoMatchAuctionOrders: `removeOrderByID` and `updateOrderByID` are not modelled, and neither are timestamps, `lastMatchedTime`, addresses and string formats.
- ProRata.GetMatchedOrders: takes the borrowers in the order given, which the source sorts by time first, and returns what is left and each borrower's records; the clearing rates of lines 252-256 and the returned lists of matched orders are not modelled.
- ProRata.ServeBorrower: modelled on values, so it does not capture that a record is shared between both lists and is given the clearing rate afterwards, which the other engine's model does; division is a function within an error of the quotient rather than the decimal rounding of the BigNumber library; ids, sorting of borrowers by time and `doMatchAuctionOrders` of that file are not modelled.
- MerkleSpec.RootBinds: states binding for an injective hash; no fact about the hash in use is assumed or proved.
- DenseMerkleTree.TsMerkleTree.constructor: takes at most 2^height leaves; the source would write past its array with more. Heights for which JavaScript's 32-bit shift wraps are not modelled.
- Sequencer.SequencerConsumer.DoTransaction: the automatic `endRollup` when fewer than three places remain, and with it sealing, padding by no-ops and `flushBlock`, are not modelled; all claims are about the open block. A cancel request has a method but no case in the switch, and is refused.
- Sequencer.SequencerConsumer.DoSecondLimitEnd: the removal of a filled taker is not awaited and names the request's leaf; when that leaf is already empty its failure has no effect on the state, and none is modelled.
- Sequencer.SequencerConsumer.AccountBeforeUpdate: Merkle proofs, public keys, the bytes of chunks and signatures are not recorded, and a root pushed as an object or as its hash is the same root.
- BlockPipeline.Pipeline.Process: what the proving tool does is a parameter; writing and reading its files is not modelled.
- ByteCodecs.BigintToUint8Array: `uint8ArrayToBigint` goes through the platform's hex reader and is modelled as the number the bytes denote.
- AmountCodes.AmountV2Order: orders amounts below the sign bit; of larger and of negative ones AmountSigns says what the code is, and AmountV2Fits that it overflows, but not which of them share one.
- MimcHash.OneOfTwoDiffers: names two inputs of which one fails, over every field, and not which of them fails over the field in use; evaluating 91 rounds on 254-bit literals is left out.
- MimcHash.HashAgreesExactly: its condition is the sign of the result; conditions on the input alone are those of HashAgrees and KeyDecides, which leave open inputs below minus a key that is not negative and less than p - 1 less the last constant, and keys strictly between 1 - p and 0.
- TraceLaws.EncodableExactly: amounts, and how far back an order lies, are not negative; what the packing library does with negative numbers is not assumed.
- `dispatchPendingTransaction`: the same cursor over pending transactions as for blocks, without the prover's second choice; it would add an easier copy.
- `arrayChunkToHexString`, `bigint_to_hex`, `stringToUint8Array` and the other one-line converters.
- The `updateLeaf` loops of the three database trees, which choose the order of children by the leaf's parity and read outside their transaction, so that their root is not the dense tree's; `addLeaf` and `getDefaultRoot`.
- The operator's contract calls, the held-deposit retry, EdDSA, Poseidon, the circuit input encoders, controllers, guards, entities and messaging.
