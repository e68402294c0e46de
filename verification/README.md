# Wallet, ledger and FX platform: a verified model

The platform keeps wallets, a hash-chained double-entry ledger with Merkle checkpoints, an outbox that carries wallet
transactions to the ledger, KYC velocity limits, FX rates and quotes, a rate limiter and an asynchronous log spool. This
project models the logic of those parts in Dafny and proves what they promise, for every input, every run and every
interleaving.

- **Concurrency** is a state machine: the state is what the database, the pods' memories and the requests in flight hold,
  one step is one atomic access, and the theorems quantify over all sequences of steps. Reads may be stale or fail,
  replies may be lost, processes may die between any two steps.
- **State that the program updates in place** is a class or a field, and its methods are proved against a function of the
  old state; the properties are then lemmas about that function.
- **SHA-256** is a parameter of which only the shape of its digests is assumed. Soundness reads "or two different inputs,
  both from the finite sets of texts that were hashed, have the same digest".
- **Time, generated ids, replies, faults and other processes** are inputs. Rates and tokens are exact reals.
- Where the code does not do what its documentation says, the model follows the code, a lemma exhibits the case, and
  another says exactly when the promise holds:
  - double entry is checked modulo 2^64, not exactly (`Postings`);
  - the hash of any node of a Merkle tree is accepted as a leaf, so a proof is worth something only for the hash of an entry text (`Merkle`);
  - a failing query for the last checkpoint starts again at entry 1, which overlaps unless nothing was stored yet or the first call is repeated within its second (`Checkpoints`);
  - a wallet may bear the name of a clearing account or of an FX pool, and then its pots and postings drift apart (`Conservation`);
  - so they do after a transfer whose priced amount does not match its request, such as nanos without units under a quote, or a currency not in normal form (`Conservation`);
  - a replayed exchange, deposit or withdrawal sends the ledger a task that was never committed, which is safe exactly if the ledger already has the key or refuses the task (`ReplayedTasks`);
  - a task whose transaction commits after younger ones can delay a pending task beyond the bound for committed tasks (`RelayProgress`);
  - velocity limits are said to be in dollars for any supported currency, but minor units of KRW, KWD and TND, which have no rate, count as cents (`DollarLimits`);
  - a burst below one, or a bucket that takes more than five minutes to fill, breaks the rate limiter's bound (`RateLimiter`).

| file | about |
|---|---|
| `Hashing`, `Encoding`, `Currency` | digests and collisions, the canonical entry text, currency codes and rounding |
| `Merkle`, `Checkpoints` | audit tree, proofs, checkpoints over the ledger |
| `Postings`, `AuditChain`, `LedgerPods`, `LedgerRequests` | double entry, the audit of the chain, many pods appending to it, what a request gets |
| `Wallets`, `WalletService`, `WalletEffects`, `Conservation` | wallet transactions, their bodies, their effect on the pots, pots against postings |
| `Compliance`, `Velocity`, `DollarLimits` | KYC limits over rolling windows, and what they are in dollars |
| `Outbox`, `Reconciliation`, `ReplayedTasks`, `Delivery`, `RelayProgress` | from committed tasks to ledger entries |
| `FxRates`, `FxPrices`, `FxQuotes`, `FxEngine` | published rates, what they come from, the life of a quote across pods, one engine in memory |
| `RateLimiter` | token buckets |
| `Spool`, `AsyncLogging` | log events: queue, publisher, disk spool |

## Model

| member | source | states |
|---|---|---|
| `Merkle.NewTree` | pkg/merkle/tree.go:69-116 | the level-by-level loop builds exactly the recursive tree of section 2.1 of RFC 6962 over the cleaned leaf hashes, and its root hash is the Merkle Tree Hash; it fails exactly for no leaves |
| `Merkle.NextLevel` | pkg/merkle/tree.go:87-107 | one round pairs neighbours and promotes an odd last node |
| `Merkle.PairUpKeepsTree` | pkg/merkle/tree.go:87-110 | a round of pairing leaves the recursive RFC 6962 tree over the nodes unchanged, whatever their number |
| `Merkle.SplitIsUnique` | pkg/merkle/tree.go:46-54 | the split point is the only power of two k with k < n <= 2k, as RFC 6962 defines it |
| `Merkle.TreeHash` | pkg/merkle/tree.go:119-124 | the root of the recursive tree carries the Merkle Tree Hash of its leaves |
| `Merkle.FindPath` | pkg/merkle/tree.go:148-177 | appends to the caller's buffer the path to the first match, and nothing when there is none |
| `Merkle.FindPathIsRfcPath` | pkg/merkle/tree.go:148-177 | the path found is the audit path of section 2.1.1 of RFC 6962 for the first occurrence, and is missing exactly for non-leaves |
| `Merkle.GetProof` | pkg/merkle/tree.go:127-145 | the proof holds the cleaned leaf, the root and the path, with the two error cases |
| `Merkle.VerifyProof` | pkg/merkle/tree.go:180-198 | accepts exactly when folding the siblings gives the expected root |
| `Merkle.PathFoldsToRoot` | pkg/merkle/tree.go:127-198 | folding the audit path of any leaf gives the Merkle Tree Hash |
| `Merkle.PathIsShort` | pkg/merkle/tree.go:148-177 | a path has at most ceil(log2 n) steps |
| `Merkle.GeneratedProofVerifies` | pkg/merkle/tree.go:127-198 | for every tree and request a proof exists exactly for the leaves, is short, and verifies unless the hash or the root is empty |
| `Merkle.AcceptedEntryIsLeaf` | pkg/merkle/tree.go:47-54 | folding any steps from an entry's digest to a root shows that the entry is among those under the root, or exhibits a collision among the texts hashed |
| `Merkle.VerifiedEntryIsInCheckpoint` | pkg/merkle/tree.go:180-198 | any accepted proof for the hash of an entry text shows membership in the checkpoint, or a collision is exhibited |
| `Merkle.RootIsAcceptedAsLeaf` | pkg/merkle/tree.go:180-198 | in particular the root itself is accepted with an empty proof although it is no leaf, barring a collision |
| `Merkle.AcceptedHashIsNode` | pkg/merkle/tree.go:180-198 | a 64-character hash accepted against a root is the hash of some node of its tree, or two inputs hashed collide |
| `Merkle.NodeHashIsAccepted` | pkg/merkle/tree.go:180-198 | conversely the hash of every node, inner ones included, is accepted with some proof |
| `Merkle.RootFixesEntries` | pkg/merkle/tree.go:47-116 | equal roots come from equal entry lists whatever their lengths, or a collision is exhibited |
| `Hashing.CleanIdempotent` | pkg/merkle/tree.go:76-82 | trimming and lower-casing twice changes nothing, so stored leaves and requested hashes meet in one normal form |
| `Encoding.CanonicalInjective` | cmd/ledger-service/double_entry.go:228-241 | equal canonical texts come from equal entries for every idempotency key, account and currency text, bars and quotes included |
| `Encoding.JsonInjective` | cmd/ledger-service/double_entry.go:228-241 | equal JSON texts come from equal posting lists |
| `Encoding.NoJsonInsideJson` | cmd/ledger-service/double_entry.go:228-241 | no JSON text of postings ends in a bar, a numeral, a bar and another such text, which is why a key with bars cannot shift the fields |
| `Encoding.PlainJson` | cmd/ledger-service/double_entry.go:41-49 | the JSON text of plain postings, member by member in the order of the struct |
| `Postings.AccumulatePostingTotals` | cmd/ledger-service/double_entry.go:51-76 | per direction and currency the 64-bit totals of exactly the currencies mentioned, or failure at a malformed posting |
| `Postings.CheckCurrencyEquilibrium` | cmd/ledger-service/double_entry.go:78-97 | passes exactly when both maps agree in every currency |
| `Postings.ValidatePostings` | cmd/ledger-service/double_entry.go:99-110 | accepts exactly the well-formed lists of two or more postings with equal wrapped totals per currency |
| `Postings.ValidIsBalancedModulo` | cmd/ledger-service/double_entry.go:99-110 | an accepted entry has equal totals modulo 2^64 in every currency, mentioned or not |
| `Postings.ValidIsExactBalance` | cmd/ledger-service/double_entry.go:51-110 | while no currency total reaches 2^64, acceptance is exactly the documented rule that debits equal credits per currency |
| `Postings.WrappedEntryIsAccepted` | cmd/ledger-service/double_entry.go:51-110 | past that bound it is not: three debits summing to 2^64 and no credit are accepted |
| `Postings.CreateMultiCurrencyTransferPostings` | cmd/ledger-service/double_entry.go:179-223 | the two or four legs, or failure exactly for an unusable source, destination, amount or currency |
| `Postings.TransferLegsBalance` | cmd/ledger-service/double_entry.go:179-223 | the legs balance exactly in every currency, and pass validation exactly for usable arguments |
| `AuditChain.VerifyDocIntegrity` | cmd/ledger-service/double_entry.go:257-274 | passes exactly for the expected sequence number, link, hash and valid postings |
| `AuditChain.VerifyAuditChain` | cmd/ledger-service/double_entry.go:302-345 | on any collection: VERIFIED exactly for a chain 1..n, otherwise CORRUPTED at the first document that breaks it, never TRIAL_BALANCE_UNBALANCED; the reported totals are the ledger's |
| `AuditChain.TrialBalance` | cmd/ledger-service/double_entry.go:276-298 | entry-by-entry validation forces equal ledger-wide wrapped totals in every currency |
| `AuditChain.SameHeadSameLedger` | cmd/ledger-service/double_entry.go:228-241 | two verified ledgers with one latest hash hold the same sequence numbers, ids, keys, millisecond times and postings, or a collision is exhibited |
| `LedgerPods.NextLinkContinues` | cmd/ledger-service/main.go:132-144 | a head read, also a failing one, continues some prefix of the chain |
| `LedgerPods.InsertableContinuesHead` | pkg/db/indexes.go:18-43 | the unique indexes let in only a document that extends the whole chain |
| `LedgerPods.StepKeepsInv` | cmd/ledger-service/main.go:228-282 | reads, inserts and crashes of any pod keep the chain, unique keys and ids, and every pending document sound |
| `LedgerPods.EveryRunVerifies` | cmd/ledger-service/main.go:228-282 | from any such state every run keeps it and never loses an entry |
| `LedgerPods.EveryReachableLedgerVerifies` | cmd/ledger-service/main.go:228-282 | in every reachable state the ledger is a chain numbered 1..n with unique keys, and debits equal credits exactly in every currency |
| `LedgerPods.StepAppendsAtHead` | cmd/ledger-service/main.go:228-282 | seen from the collection, the interleaved pods make atomic appends at the head |
| `LedgerPods.LedgerCollection.InsertOne` | pkg/db/indexes.go:18-43 | appends exactly when id, key and sequence number are all new |
| `LedgerPods.LedgerCollection.FindByKey` | cmd/ledger-service/main.go:117-130 | finds the first entry of the key; a failing query looks like an absent key |
| `LedgerPods.TryInsert` | cmd/ledger-service/main.go:228-276 | the exact outcome and state of one attempt, with steps of other pods before its read and before its insert, and an insert that fails with or without effect |
| `LedgerPods.AttemptKeepsInv` | cmd/ledger-service/main.go:228-276 | such an attempt keeps the invariant and loses nothing |
| `LedgerPods.CalmAttemptInserts` | cmd/ledger-service/main.go:228-276 | undisturbed, a new key is recorded at the head with the next number and the link to the last entry |
| `LedgerPods.DuplicateMeansRace` | cmd/ledger-service/main.go:257-272 | an attempt with a good read that hits a unique index either meets its own key or lost the sequence number to an entry appended since the read |
| `LedgerPods.CalmAttemptRecords` | cmd/ledger-service/main.go:228-282 | if any attempt is calm and the earlier ones ended in duplicates, the call answers with an entry of the key |
| `LedgerPods.GivingUpMeansContention` | cmd/ledger-service/main.go:228-286 | where nothing fails, a call gives up only if other pods appended at least one entry per attempt, and then its key has no entry |
| `LedgerPods.GivingUpTakesFive` | cmd/ledger-service/main.go:228-286 | in particular the five attempts of a call give up only after five foreign appends |
| `LedgerPods.ServedIsSafe` | cmd/ledger-service/main.go:167-335 | under any interference and any faults the chain is kept, nothing is lost, an id is returned only if the entry of that key and id is stored, a refused request changes nothing, and a stored key is answered without a write |
| `LedgerPods.RecordTransaction` | cmd/ledger-service/main.go:167-335 | the retry loop gives exactly the answer and the state of the specified call, through all attempts, lookups and the outbox append, for any interleaving and any faults |
| `LedgerRequests.RefusedExactly` | cmd/ledger-service/main.go:181-221 | which requests are answered with InvalidArgument, in terms of the key, amounts, currency codes and accounts alone: no others, and all of these |
| `LedgerRequests.NewRequestIsRecorded` | cmd/ledger-service/main.go:181-282 | every other request with a new key is recorded by a calm first attempt: an entry with its accounts, both amounts and both currencies, its two or four legs, and a hash over the six fields in their order |
| `LedgerRequests.LegsAreTheJournal` | cmd/ledger-service/double_entry.go:112-223 | the legs of a request, with accounts, account types, directions, amounts and currencies written out |
| `LedgerRequests.EntryText` | cmd/ledger-service/double_entry.go:228-241 | the text that is hashed: previous hash, number, id, key, time and postings between bars |
| `Checkpoints.CheckpointStore.GenerateCheckpoint` | cmd/ledger-service/merkle.go:39-119 | computes the specified outcome and stores it exactly when it is created |
| `Checkpoints.ReadCursor` | cmd/ledger-service/merkle.go:71-90 | the loop yields the batch's leaf hashes and its first and last sequence numbers |
| `Checkpoints.CheckpointIdFixesRange` | cmd/ledger-service/merkle.go:92-119 | equal checkpoint ids name equal ranges made in the same second |
| `Checkpoints.CallTilesFurther` | cmd/ledger-service/merkle.go:39-119 | a call extends the tiling to the batch limit or the end of the ledger, and does nothing exactly when nothing is new |
| `Checkpoints.SuccessiveCallsTile` | cmd/ledger-service/merkle.go:39-119 | successive calls over a growing ledger, each with its own good or failing read, tile 1..last end without gap or overlap if and only if every failing read came before any checkpoint or repeated the first call within its second |
| `Checkpoints.FailedReadRestarts` | cmd/ledger-service/merkle.go:39-119 | what one call with a failing read leaves is a tiling if and only if there was no checkpoint or the first one was made in the same second over the same entries, which the unique id then refuses |
| `Checkpoints.FirstCheckpoint` | cmd/ledger-service/merkle.go:39-119 | the first checkpoint is that of the first call that found an entry, whether its read failed or not |
| `Checkpoints.GenerateProofForEntry` | cmd/ledger-service/merkle.go:165-215 | the RFC 6962 path in the chosen checkpoint, with the flag VerifyProof gives, or the matching error |
| `Checkpoints.ChosenCheckpoint` | cmd/ledger-service/merkle.go:175-193 | the named checkpoint if there is one; without a name the one that reaches furthest among those that hold the leaf, or among all |
| `Checkpoints.CoveredEntryIsProved` | cmd/ledger-service/merkle.go:165-215 | every entry under a checkpoint gets a proof that verifies against a stored root and has at most ceil(log2 of entry count) steps |
| `Checkpoints.CheckpointProofIsSound` | cmd/ledger-service/merkle.go:165-215 | an accepted proof for an entry text against a stored root shows that the text is sealed in the checkpoint's own range of the ledger, or a collision is exhibited |
| `Currency.NormalizeIdempotent` | pkg/db/currency.go:54-56 | normalising a code twice changes nothing |
| `Currency.RoundToEven` | pkg/db/currency.go:169-186 | a nearest integer, ties to even |
| `Currency.RoundToEvenIsUnique` | pkg/db/currency.go:169-186 | there is only one such integer |
| `Currency.ConversionAccuracy` | pkg/db/currency.go:169-186 | a conversion is within half a minor unit of the exact value, or is the one-unit floor |
| `Currency.IdentityConversion` | pkg/db/currency.go:169-186 | converting a currency into itself at rate one returns the amount |
| `FxPrices.ScaleIsARatio` | pkg/db/currency.go:169-186 | converting multiplies by the target's minor units per unit and divides by the base's, for every pair of the catalogue |
| `WalletService.Service.CreateWallet` | cmd/wallet-service/main.go:322-421 | succeeds exactly when a new valid wallet is inserted, with base balance and primary pot equal |
| `WalletService.Service.ValidateWalletsOperational` | cmd/wallet-service/main.go:759-800 | passes exactly for two active wallets within the source's limits |
| `WalletService.Service.ExecuteDebitAndCredit` | cmd/wallet-service/main.go:802-912 | both pots and base balances move by the prepared amounts, or nothing is written |
| `WalletService.Service.TransferFunds` | cmd/wallet-service/main.go:974-1039 | the whole new database state of the transaction, success exactly when a task is committed |
| `WalletService.Service.ExchangeCurrency` | cmd/wallet-service/main.go:1353-1416 | the summed increment is a debit followed by a credit, in one transaction; a known key is answered with success and writes nothing |
| `WalletService.Service.DepositFunds` | cmd/wallet-service/main.go:1604-1647 | the whole new database state of the transaction; a known key is answered with success and writes nothing |
| `WalletService.Service.WithdrawFunds` | cmd/wallet-service/main.go:1828-1882 | the whole new database state of the transaction; a known key is answered with success and writes nothing |
| `WalletEffects.ExchangeEffect` | cmd/wallet-service/main.go:1353-1416 | an exchange goes exactly for a new key, two different listed currencies, positive amounts and a covering pot; it then takes exactly its units from the source pot, adds exactly its target to the target pot, moves no other pot, and books a task with the same amounts |
| `WalletEffects.DepositEffect` | cmd/wallet-service/main.go:1604-1647 | a deposit goes exactly when valid and new, adds exactly its units to one pot, and books a task against the rail's clearing account |
| `WalletEffects.WithdrawalEffect` | cmd/wallet-service/main.go:1828-1882 | a withdrawal goes exactly when valid, new and covered, takes exactly its units from one pot, and books a task towards the rail's clearing account |
| `WalletEffects.TransferEffect` | cmd/wallet-service/main.go:516-586 | a transfer goes exactly when valid, new, priced, between active wallets, within limits and covered; it takes its units from the source, adds what it was priced at to the destination, and books a task that carries both |
| `WalletEffects.CreationEffect` | cmd/wallet-service/main.go:322-421 | a wallet is created exactly for a new id and a valid request, with its initial balance as its only pot |
| `Wallets.DebitFilterIsPot` | cmd/wallet-service/main.go:823-840 | on a healthy wallet the `$or` filter passes exactly when the pot covers the debit |
| `Wallets.EveryRunIsHealthy` | cmd/wallet-service/main.go:380-390 | in every reachable state no pot is negative and every base balance equals the primary pot |
| `Wallets.CurrencyNeverChanges` | cmd/wallet-service/main.go:516-586 | no run changes a wallet's primary currency, so reading it before the transaction is safe |
| `Wallets.KeyMovesMoneyOnce` | cmd/wallet-service/main.go:981-1031 | in any run, whatever idempotency records expire, at most one operation under a key moves money, across all four kinds |
| `Conservation.TransferMatchesExactly` | cmd/wallet-service/main.go:1002-1021 | an admitted transfer between ordinary wallets moves on both what its task posts if and only if its amounts match, a condition on the request and its price alone |
| `Conservation.EveryRunConserves` | cmd/wallet-service/main.go:823-912 | in every run whose committed transfers match, each pot equals its initial balance plus credits minus debits of the postings of all committed tasks |
| `Conservation.MismatchLeavesStep` | cmd/wallet-service/main.go:1002-1021 | a transfer that commits without matching makes some pot differ from the postings |
| `Conservation.InStepExactlyIfTransfersMatch` | cmd/wallet-service/main.go:802-1021 | in any run, pots and postings are in step at every moment if and only if every transfer that commits matches |
| `Conservation.UnmatchedTransferDrifts` | cmd/wallet-service/main.go:516-586 | for every amount a run in which a transfer of no units credits it to the destination, debits nothing, and leaves a task the ledger refuses |
| `Conservation.ConservedExactlyOffSystemAccounts` | cmd/ledger-service/double_entry.go:179-223 | a wallet name conserves in all exact runs if and only if it is not the name of a clearing account or FX pool |
| `Conservation.ClearingAccountBreaks` | cmd/wallet-service/main.go:1579-1635 | for every rail and currency a run in which the wallet named like the clearing account drifts |
| `Conservation.PoolAccountBreaks` | cmd/ledger-service/double_entry.go:195-223 | the same for a wallet named like an FX pool |
| `Velocity.AdmittedSpendFits` | cmd/wallet-service/compliance.go:149-180 | a spend admitted by the check respects the windows that end when it is recorded, however much later |
| `Velocity.CheckIsSpared` | pkg/db/indexes.go:117-132 | a purge that runs at most two days ahead of a check leaves the check's windows alone: three days of life less one day of window |
| `Velocity.EveryWindowHolds` | cmd/wallet-service/compliance.go:100-180 | in every run, with overlapping transactions and clocks that differ, each rolling day ending when a transfer is recorded holds at most the tier's volume and each rolling hour at most its count, over the full history of all spends |
| `Velocity.EveryDayHolds` | cmd/wallet-service/compliance.go:100-180 | any day at all whose last committed record is a transfer's holds at most that tier's volume, records committed out of order included |
| `Velocity.SlackIsExact` | pkg/db/indexes.go:117-132 | the windows hold in all runs if and only if purges run at most two days ahead of the checks |
| `DollarLimits.RecordedAtItsValue` | cmd/wallet-service/compliance.go:73-97 | an amount is recorded at its value in cents by the table of rates, to half a cent and at least one; without a rate as it is |
| `DollarLimits.LimitsInDollars` | cmd/wallet-service/compliance.go:149-180 | the check passes exactly within the tier's single, hourly and daily limits, written out in dollars |
| `DollarLimits.OverLimitIsRefused` | cmd/wallet-service/compliance.go:149-160 | a transfer worth more than the tier's single limit by over half a cent, in whatever currency, changes nothing |
| `DollarLimits.EveryDayInDollars` | cmd/wallet-service/compliance.go:100-180 | any day whose last record is a transfer's holds payments worth at most the tier's daily limit in dollars, plus half a cent each |
| `Outbox.StepKeepsInv` | cmd/wallet-service/ledger_outbox.go:393-425 | commits, picks, dispatches, pod steps, replies, losses and crashes keep the outbox invariant |
| `Outbox.SuccessMeansHasKey` | cmd/ledger-service/main.go:199-282 | a pod answers a request with success only if the ledger then holds its key, which is what lets a worker complete a task |
| `Outbox.EveryRunDelivers` | cmd/wallet-service/ledger_outbox.go:507-570 | in every run, replays included, the ledger verifies with one entry per key and a completed task has its entry |
| `Outbox.EveryTaskPostedOnceAsCommitted` | cmd/wallet-service/ledger_outbox.go:507-570 | in every run a committed task whose own key is replayed only harmlessly has at most one entry, carrying its own amounts and transaction id, and has it once completed; other keys may be replayed at will |
| `Outbox.EveryEntryIsATask` | cmd/wallet-service/ledger_outbox.go:507-570 | if all replays are harmless every entry belongs to a committed task |
| `ReplayedTasks.ReplayIsSafeExactlyIfHarmless` | cmd/wallet-service/main.go:1655-1665 | after a replay with a new transaction id every continuation keeps the entry faithful to the committed task if and only if the ledger already had the key, or refuses the rebuilt task |
| `ReplayedTasks.OvertakingEntry` | cmd/wallet-service/main.go:1655-1665 | otherwise there is a continuation that leaves an entry with the task's key and not its content |
| `ReplayedTasks.ReplayPostsAnotherAmount` | cmd/wallet-service/main.go:1655-1665 | a run in which one unit is deposited and the ledger records two |
| `Delivery.EveryTaskCanBeDelivered` | cmd/wallet-service/ledger_outbox.go:393-425 | from any reachable state a committed task that the ledger accepts can be posted faithfully and completed |
| `Delivery.RelayMarks` | cmd/wallet-service/ledger_outbox.go:540-562 | a relay completes its task on success, and otherwise counts a retry and fails the task at the fifth it has read |
| `Reconciliation.EntryTakesItsPostings` | cmd/ledger-service/main.go:199-204 | a new entry takes exactly its own postings out of what committed tasks have yet to post |
| `Reconciliation.Reconciles` | cmd/wallet-service/ledger_outbox.go:507-570 | postings of all tasks are the ledger's postings plus those of tasks without entry, whatever the order |
| `Reconciliation.PotsAgreeWithLedger` | cmd/wallet-service/ledger_outbox.go:507-570 | end to end, with harmless replays, a pot is its initial balance plus the ledger's postings plus what is still missing, and nothing is missing once all tasks are completed |
| `RelayProgress.BatchSize` | cmd/wallet-service/ledger_outbox.go:312-338 | the configured size if positive, and never zero |
| `RelayProgress.TaskStore.FindPending` | cmd/wallet-service/ledger_outbox.go:70-87 | exactly the oldest pending tasks up to the limit, in order |
| `RelayProgress.TaskStore.MarkCompleted` | cmd/wallet-service/ledger_outbox.go:89-104 | changes the status of one task |
| `RelayProgress.TaskStore.MarkFailed` | cmd/wallet-service/ledger_outbox.go:106-118 | counts one more retry and leaves the status |
| `RelayProgress.TaskStore.MarkPermanentlyFailed` | cmd/wallet-service/ledger_outbox.go:120-135 | counts one more retry and overwrites the status |
| `RelayProgress.Dispatch` | cmd/wallet-service/ledger_outbox.go:520-562 | a success completes the task; a failure counts a retry and fails it at the fifth, even if it was completed meanwhile |
| `RelayProgress.Visit` | cmd/wallet-service/ledger_outbox.go:520-562 | one turn of the loop, after whatever the service did meanwhile, marks its task and disturbs no other |
| `RelayProgress.ProcessBatch` | cmd/wallet-service/ledger_outbox.go:507-570 | every task of the batch is marked by its own reply, all others are left alone, whatever arrives, commits or is completed by immediate dispatch meanwhile; the counts add up to the batch, and no failure means every reply was a success |
| `RelayProgress.AtMostFiveVisits` | cmd/wallet-service/ledger_outbox.go:546-554 | in no run, from any state, does the relay dispatch a task more than five times |
| `RelayProgress.SuccessCompletes` | cmd/wallet-service/ledger_outbox.go:559-562 | a task that the ledger accepts is completed for good |
| `RelayProgress.EndsAreEarned` | cmd/wallet-service/ledger_outbox.go:533-562 | a task counts its refusals, is failed only at the fifth, and is completed only by a success |
| `RelayProgress.LeavesWithinFiveVisits` | cmd/wallet-service/ledger_outbox.go:546-554 | a task in a batch, with no older one yet to commit, has left pending five batches later |
| `RelayProgress.FiveBatchesAdvance` | cmd/wallet-service/ledger_outbox.go:507-570 | five batches take a full batch of older tasks away |
| `RelayProgress.DispatchedInTime` | cmd/wallet-service/ledger_outbox.go:507-570 | a pending task with p older pending ones, and none older yet to commit, is dispatched within 5 * (p / b) + 1 batches of size b unless completed before, whatever arrives and fails |
| `RelayProgress.DispatchedDespiteLateCommits` | cmd/wallet-service/main.go:1002-1021 | with p older tasks, visible or not, it is dispatched within 5 * p / b + 1 batches even if they commit late |
| `RelayProgress.LateCommitDelays` | cmd/wallet-service/main.go:1016-1018 | a run in which one late commit makes a task wait longer than the sharper bound |
| `RateLimiter.Limiter.Allow` | cmd/api-gateway/middleware.go:201-229 | the specified decision and new bucket; other clients are untouched |
| `RateLimiter.Limiter.EvictStale` | cmd/api-gateway/middleware.go:181-195 | removes exactly the clients idle for more than five minutes |
| `RateLimiter.EvictsExactly` | cmd/api-gateway/middleware.go:181-195 | a client is forgotten exactly when last seen more than five minutes ago |
| `RateLimiter.WindowBound` | cmd/api-gateway/middleware.go:174-229 | in any window of length T of any run a client gets at most burst + rate * T requests |
| `RateLimiter.LetInExactly` | cmd/api-gateway/middleware.go:201-229 | a request is let in if and only if, counting from every earlier request of its client, the requests let in and this one stay within burst + rate * T: the bucket in closed form |
| `RateLimiter.RefusedHasSpent` | cmd/api-gateway/middleware.go:201-229 | a refused client has an earlier request since which one more would exceed burst + rate * T, with or without cleanups |
| `RateLimiter.SilentClientIsLetIn` | cmd/api-gateway/middleware.go:213-226 | a client silent for the time of one token is let in, whatever was refused before |
| `RateLimiter.InNumbers` | cmd/api-gateway/middleware.go:174-229 | the rate and the five minutes as numbers |
| `RateLimiter.BoundedExactlyIfAdequate` | cmd/api-gateway/middleware.go:174-229 | with the cleanup running the bound holds in all runs if and only if burst >= 1 and rate * 300 >= burst |
| `RateLimiter.EvictionUnobservableExactlyIfAdequate` | cmd/api-gateway/middleware.go:174-229 | evicting changes no decision of any run if and only if burst >= 1 and rate * 300 >= burst |
| `Spool.WithDefaults` | pkg/observability/spool.go:63-74 | limits are always positive |
| `Spool.FileSpool.Append` | pkg/observability/spool.go:76-116 | the event is last, after a prune exactly when it would exceed the limit |
| `Spool.FileSpool.PruneUnderLock` | pkg/observability/spool.go:202-248 | both loops compute the specified selection |
| `Spool.FileSpool.Replay` | pkg/observability/spool.go:118-173 | publishes a prefix up to the first refusal and keeps exactly the rest |
| `Spool.PruningIsCareful` | pkg/observability/spool.go:202-248 | pruning keeps order, keeps exactly the unexpired audit events, and keeps the estimated size within 80% of the limit plus the audit events |
| `Spool.NewerEventsComeFirst` | pkg/observability/spool.go:222-236 | what is kept of the newer events does not depend on the older ones |
| `Spool.FittingKeepsWhatFits` | pkg/observability/spool.go:222-236 | what is within the target is kept whole |
| `Spool.PruningKeepsWhatFits` | pkg/observability/spool.go:202-248 | only expired events are dropped while the rest is within 80% of the limit |
| `Spool.SizesAreSums` | pkg/observability/spool.go:222-236 | estimates add type, message and 200 bytes per event, the file its lines with newlines |
| `Spool.UnexpiredExactly` | pkg/observability/spool.go:208-219 | an event expires when it is older than the age limit |
| `Spool.AppendPrunesIfFull` | pkg/observability/spool.go:98-101 | an append prunes exactly when the file would exceed its limit |
| `Spool.PrunedTakesNoLiveAudit` | pkg/observability/spool.go:202-248 | nothing is invented, and an audit event is taken only if it has expired |
| `AsyncLogging.AsyncLogger.Emit` | pkg/observability/publisher.go:118-133 | queue, else spool, else the drop counter |
| `AsyncLogging.AsyncLogger.Publish` | pkg/observability/publisher.go:184-194 | published, else spooled, else counted as dropped |
| `AsyncLogging.AsyncLogger.ReplayAndCount` | pkg/observability/publisher.go:172-182 | the counted prefix moves from the spool to the publisher, in order |
| `AsyncLogging.AsyncLogger.Drain` | pkg/observability/publisher.go:158-167 | stopping empties the queue and loses nothing: in order to the publisher if it accepts, and dropped only if publisher and spool both refuse |
| `AsyncLogging.EveryRunConservesEvents` | pkg/observability/publisher.go:118-194 | in every run each emitted event is in exactly one of queue, worker's hand, published, spool, pruned or dropped, and no audit event is pruned before it expires |
| `AsyncLogging.PublishedInOrder` | pkg/observability/publisher.go:118-194 | while the publisher accepts and the queue has room, events are published in the order they were emitted |
| `AsyncLogging.SpooledExactly` | pkg/observability/publisher.go:118-194 | an event falls back to the spool exactly when the queue is full or the publisher refuses, and is dropped exactly when the spool then fails |
| `AsyncLogging.DropsNeedFailures` | pkg/observability/publisher.go:118-194 | in every run at most one event is dropped for each failure of the spool |
| `FxRates.Round` | cmd/fx-service/engine.go:130-132 | a nearest integer, ties away from zero |
| `FxRates.PublishedRatesAreOrdered` | cmd/fx-service/engine.go:278-316 | for every pair, mid rate and spread: effective <= mid, bid <= mid <= ask after pip rounding, and mid within half a pip |
| `FxRates.EveryPublishedRateIsOrdered` | cmd/fx-service/engine.go:238-372 | after any overrides and synchronisations every answer is so ordered, and a currency is worth itself |
| `FxPrices.PairIsPublished` | cmd/fx-service/engine.go:278-316 | bid, ask and effective are their shares of the rate to half a pip, and effective is at least mid less the spread less a pip |
| `FxPrices.MidIsTheCrossRate` | cmd/fx-service/engine.go:340-371 | without an override mid times the base's dollar rate is the target's, to half a pip |
| `FxPrices.SynchronisedRates` | cmd/fx-service/engine.go:135-156 | after a synchronisation with rate r the dollar is published at r, and back at 1 / r |
| `FxPrices.OverriddenRate` | cmd/fx-service/engine.go:238-276 | an override publishes its rate whatever is synchronised later, and against the dollar sets the dollar rate |
| `FxPrices.InvalidOverride` | cmd/fx-service/engine.go:238-252 | an invalid override changes nothing |
| `FxRates.ChargedFeeIsProper` | cmd/fx-service/engine.go:429-441 | the fee is never negative, never the whole amount, and zero between equal currencies |
| `FxRates.QuoteIsNotAboveMid` | cmd/fx-service/engine.go:404-443 | the target amount exceeds the mid-rate value by more than half a minor unit if and only if that value is below half a unit, and then it is the one-unit floor |
| `FxPrices.QuoteIsTheWorth` | cmd/fx-service/engine.go:404-443 | a quote is the worth of the amount less the fee at the published effective rate, to half a minor unit, with the scales written out; the fee is its share to half a unit or waived |
| `FxRates.SameCurrencyQuoteIsIdentity` | cmd/fx-service/engine.go:404-443 | a currency quoted against itself returns the amount free of charge |
| `FxQuotes.StepKeepsInv` | cmd/fx-service/engine.go:545-652 | every access to database or memory by any request, cache refills, expiry writes and pod crashes included, keeps the quote invariant |
| `FxQuotes.QuoteConsumedOnce` | cmd/fx-service/engine.go:570-634 | under any interleaving, with or without a database, a client-held quote is consumed by at most one conversion, not after expiry, at exactly the quoted terms, which agree with what the request named |
| `FxQuotes.ActiveQuoteConverts` | cmd/fx-service/engine.go:570-634 | a request that agrees with an active quote can consume it before expiry, on any pod that can see it |
| `FxQuotes.ExpiredOverExecuted` | cmd/fx-service/engine.go:477-498 | for every quote a run in which a reader writes EXPIRED over EXECUTED and the one conversion stands |
| `FxEngine.Engine.CreateQuote` | cmd/fx-service/engine.go:404-474 | stores and returns the priced terms with a lifetime of 1 to 3600 seconds, or nothing |
| `FxEngine.Engine.GetQuote` | cmd/fx-service/engine.go:477-498 | returns the stored terms and never an active quote past its expiry |
| `FxEngine.Engine.ConvertCurrency` | cmd/fx-service/engine.go:545-704 | a known key gets its own conversion back and changes nothing; otherwise a completed conversion uses a quote that none had used, at its terms, and with a quote id completes exactly for a usable quote |

## Left out

- HTTP and gRPC handlers, authentication, ownership checks, fraud scoring, caches, failover, webhooks, metrics and tracing: easy or external.
- Text of error messages, and fields that only travel along: region, exchange rate, quote id of a task, inverse rate, provider, reference.
- Case mapping and trimming beyond ASCII.
- 64-bit overflow other than in posting totals: sequence numbers, balances incremented by the database, `MaxBytes * 8`, and times outside the range of UnixNano.
- Float64 rounding of rates, fees, tokens and scale factors; the local fallback rate table and provider feeds are inputs.
- JSON and BSON decoding faults, file locks, fsync and scanner line limits of the spool: the spool is a sequence of events, and a lock that cannot be taken is an input.
- Concurrent checkpoint workers: only serial calls are claimed, since nothing makes ranges unique.
- The relay lease and its backoff: `Outbox` allows any number of overlapping relays, `RelayProgress` assumes one whose store writes succeed.
- Text is well-formed Unicode: the replacement of invalid UTF-8 by the JSON encoder is not modelled.
- Velocity, balance and status checks of exchanges, deposits and withdrawals happen before their transaction; in `Wallets` those operations are admitted without them. `Velocity` promises nothing for windows that end at an exchange or withdrawal, and assumes that no aggregation or recording fails.
- Keys, wallet ids and quote ids of the money operations are taken as already trimmed, and the alternative field `currency_code` as already merged into the currency.
- A transfer of zero units (only nanos) that meets an unchanged `updated_at` second modifies nothing and is refused; the model lets it pass, moving nothing.
- Amounts of a transfer as priced by the FX service are an input of the operation, as is the destination currency read before its transaction, which is the wallet's own (`Wallets.CurrencyNeverChanges`).
- Conservation.InStepExactlyIfTransfersMatch: transfers from or to wallets that bear a system account's name are excluded; `Conservation.ConservedExactlyOffSystemAccounts` is about those.
- ReplayedTasks.ReplayIsSafeExactlyIfHarmless: generated transaction ids are new, so the rebuilt task never has the committed one's.
- FxQuotes.QuoteConsumedOnce: clocks of the pods are one clock that never runs backwards; uniqueness of generated quote ids is assumed.
- FxEngine.Engine.ConvertCurrency: one reading of the clock per call; interleaved calls are the subject of `FxQuotes`.
- FxQuotes: steps are functions on the shared state rather than methods of a class, so pointer aliasing between a loaded quote and the cache appears as later reads of the same value.
- Idempotency of conversions across pods: the unique key of the conversion collection is not modelled.
- Members that would only repeat these results: listings, limits queries, rate listings, GetCheckpoints, OldestAge.
