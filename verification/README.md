# Blnk ledger, modelled and verified

Blnk is a double-entry ledger. A transaction moves an integer amount of minor units from one
balance to another, at once or by way of an inflight hold that is committed in parts or voided
later. Work is queued under copy references, processed by concurrent workers one by one or in
coalesced batches, and recovered when it gets stuck. On top sit multi-leg inflight actions with
retries, fund lineage, a hash chain over the transaction table, brokerage settlement, balance
history and reconciliation by groups. This project models those parts in Dafny and proves what
they promise over all inputs, all runs and all interleavings.

`dafny verify dfyconfig.toml` checks everything.

## Modules

| module | models | main results |
|---|---|---|
| `Ledger` | balances and the arithmetic of a posting | `PostIsDoubleEntry` |
| `Storage` | the table of rows and versioned balances, guarded updates in chunks | `Datasource.UpdateBalanceSet`, `ChunksCompose` |
| `Execution` | the single path and the batch path as functions on the store | `BatchRefinesRun`, `BatchMatchesRunIff`, `RunGivesBatch`, `BatchAsks`, `QueuedBatchRefused` |
| `Funds` | what a balance can spend beside its holds, its queue and its overdraft | `PaidForIff`, `WithinLimitIff`, `RunKeepsFree`, `BatchKeepsFree`, `InterleavingsKeepFree` |
| `Coalescing` | the engine that builds and stores batches on shared balance objects | `CopiesArePicked`, `Blnk.ProcessQueued`, `Blnk.LeaderIsExecuted`, `SiblingDecidedAlikeIff`, `SelfTransferDiverges` |
| `Inflight`, `Kernel` | commits, voids, rebuilt holds; the ledger invariant over all runs | `RunKeeps`, `RecomputeIsNoOp`, `ZeroSum`, `CommitSucceedsIff`, `ClosedForever` |
| `Concurrency` | workers that read, compute and write in any interleaving | `NoLostUpdate`, `InterleavingsKeepKernel` |
| `References` | the `<ref>_q` protocol with recovery and rejection | `ActorsAtMostOneOutcome`, `Recovery.Recover` |
| `InflightActions` | commit or void of all legs of a parent, with retries | `AtMostOneChildPerLeg`, `AttemptSettles`, `FaultFreeRetryIff` |
| `Allocation` | FIFO, LIFO and proportional allocation | `StrategyGives`, `FifoMirrorsLifo`, `ProportionalBounds` |
| `LineageDebit`, `LineageRetry` | one lineage debit under crashes and retries | `NeverOverReleased`, `ReceivesMatchIff`, `ConvergesIff` |
| `LineageAccounting` | shadow and aggregate balances over all credits and debits | `RunStaysAccounted`, `DebitConserves` |
| `HashChain`, `Sealing`, `Verifier` | the hashed string, sealing in batches, the paged verifier | `PinnedIffPlain`, `SealsTheOldest`, `RunKeepsChain`, `BatchingIrrelevant`, `TamperEvidentIff`, `VerifiesWhileSealing` |
| `Settlement`, `SettlementRun` | commits of a settle-date bucket and its net roll to spot; several buckets in a run | `BuysBeforeSells`, `SettlementNets`, `CommitAllSucceedsIff`, `OrderIrrelevant`, `SecondSettlementIsNoOp`, `SettlementRunNets` |
| `Tradable`, `Positions` | tradable quantity by settle date, on quantities and read off the ledger | `PassesIff`, `SellKeepsIff`, `SettleKeepsIff`, `ChecksTheLegs`, `SettlementIsSettled`, `LedgerNeverOversold` |
| `History` | balances at a past time, from snapshots or from the beginning | `OneRowChanges`, `AtTimeIff`, `SnapshotsIrrelevant`, `ReloadedHistoryAlikeIff` |
| `Claiming` | concurrent workers claiming match groups | `EveryoneSettled`, `NothingMissed` |

`Wrappers` holds `Option`, `Result` and a few basics.

## How it is modelled

- A `big.Int` is an `int`. An overdraft limit and a precision factor are `real`.
- A held lock, or a database transaction, is one atomic step; a failed one changes nothing.
  Interleavings are sequences of such steps in any order.
- Objects that the Go code updates in place are classes with the same fields (`Ledger.Balance`,
  `Storage.Datasource`, `Sealing.Datasource`, `LineageDebit.Processor`, ...). Every method is proved
  equal to a function on values, and the properties are proved of that function.
- Generated ids and references, clocks, the answers of lookups, and faults from outside are
  parameters, so every statement holds whatever they are. Fresh ids are assumed to be new.
- The hash is a parameter too. Only the lemmas on tampering in `Verifier` ask something of it:
  that different strings hash differently and that a digest contains no separator.
- A library sort may return any permutation in the right order; nothing is assumed about ties.

## What the code does not promise after all

Each of these is proved: by a concrete case, by the exact condition under which the promise holds on all
inputs, or by both.

- A batch stores a self-transfer, because both sides share one object; the single path refuses it,
  because the second guarded update finds the version already bumped. So a batch stands for the single
  path iff it holds no self-transfer (`Execution.BatchMatchesRunIff`, `Coalescing.SelfTransferDiverges`).
- With queued checks on, a batch reads the queued debits before its own outcomes are stored, so it refuses
  lists that run one by one (`Execution.QueuedBatchRefused`); it succeeds iff every member can be paid for with
  the queued debit of the start (`RunGivesBatch`).
- The stored row has no column for the overdraft limit, and a sibling or a recovered original is
  reloaded from its row. It is decided as the original iff the limit was zero or never mattered
  (`Coalescing.SiblingDecidedAlikeIff`). The lookup leaves out the effective date as well, and past balances
  read the same iff it was the creation time (`History.ReloadedHistoryAlikeIff`).
- The comment at brokerage.go:136-137 says that a position cannot be oversold regardless of the
  offset. A sell for a later date followed by one for an earlier date does oversell
  (`Tradable.LaterThenEarlierOversells`); a sell keeps every date covered iff its quantity is covered
  through every later date (`SellKeepsIff`). Settling a later bucket before an earlier one can uncover
  a date as well (`LateBucketFirstOversells`, `SettleKeepsIff`). While a settlement is half done, what its sells have delivered
  counts as available again until the roll (`Positions.HalfSettledShifts`).
- A release of a lineage debit whose receive does not follow in the same attempt never gets it: because the
  attempt died in between, or because the destination's shadows could not be prepared, which is only logged
  (`LineageDebit.MissedReceiveStaysMissed`, `UnpreparedLosesReceive`). Receives match releases iff every posted
  release was followed (`ReceivesMatchIff`). When the destination belongs to the spending identity, a
  receive refills the shadow that was released from, and retrying need not reach the releases of an
  uninterrupted run; it does iff `LineageRetry.Converging` holds (`ConvergesIff`).
- A negative commit amount is classified as retryable, so the queued job asks for a retry every time
  (`InflightActions.FaultFreeRetryIff`). An empty action id gives random references and no idempotence
  (`EmptyActionIdRepeats`).
- A stuck original that is skipped because of a rejected sibling has no attempt recorded, so it is met
  again in every sweep (`References.Recovery.ProcessStuck`).
- The net roll of a settlement is stored without a status, so replaying APPLIED rows misses it: that replay
  explains a balance iff no roll has touched it (`Kernel.AppliedReplaysIff`, `Settlement.RollIsNotReplayed`).
  The ledger invariant therefore counts the rows without a status as well, and every other result holds
  before and after any number of settlements.
- The hashed fields are joined by `|`. A row is pinned down by its hash iff no field contains that
  character (`HashChain.PinnedIffPlain`), and a whole table by its head iff none of its rows does
  (`Verifier.TamperEvidentIff`); the twin differs in text columns only. Rows at a position of 0 or less are
  skipped by the paged query (`VerifyChain`). The head is compared only when the replayed and the recorded
  length agree (`Verifier.ShorterIsNotCompared`).
- A snapshot gives the replayed balance iff it was accurate; a row stored later with an earlier
  effective date makes it inaccurate, and so does a net roll (`History.AtTimeIff`,
  `BackdatedRowBreaksSnapshot`, `StoredSnapshotAccurateIff`).

## Model

| member | source | states |
|---|---|---|
| `Ledger.Balance.AddCredit` | model/model.go:117-125 | a credit goes to the hold field or to the settled field, never both, and touches nothing else |
| `Ledger.Balance.AddDebit` | model/model.go:129-136 | the same for a debit |
| `Ledger.Balance.ComputeBalance` | model/model.go:140-147 | rebuilds balance or inflight from the four totals: a hold only changes inflight, a settled amount only balance |
| `Ledger.Balance.CommitInflightDebit` | model/model.go:209-241 | succeeds iff the hold covers the amount; then the amount has moved from hold to settled debit; a refusal changes nothing |
| `Ledger.Balance.CommitInflightCredit` | model/model.go:218-257 | the same on the credit side |
| `Ledger.Balance.RollbackInflightDebit` | model/model.go:271-279 | succeeds iff the hold covers the amount; then the hold is smaller by it; a refusal changes nothing |
| `Ledger.Balance.RollbackInflightCredit` | model/model.go:260-268 | the same on the credit side |
| `Ledger.UpdateBalances` | model/model.go:457-486 | the funds and overdraft check, then both sides; also with one object as source and destination; a refusal changes nothing. Which amounts are covered is Funds.PaidForIff |
| `Ledger.ApplyTransactionToBalances` | transaction_execution.go:321-366 | dispatch by status (commit, void, everything else) on the balance objects: exactly the two sides of the specification, with its errors |
| `Ledger.PostIsDoubleEntry` | transaction_execution.go:321-366 | what the source gains in debit (or held debit) the destination gains in credit (or held credit); no third balance and no other field changes |
| `Ledger.PostKeepsCoherence` | transaction_execution.go:321-366 | balance = credit - debit and inflight = inflight credit - inflight debit survive every posting |
| `Ledger.FinalizedTwice` | transaction_execution.go:189-213 | deciding the final status twice, as the batch path does, is deciding it once |
| `Funds.PaidForIff` | model/model.go:147-205 | without overdraft an ordinary transaction goes through iff balance - held debit - queued debit of its source covers the amount, and is refused for insufficient funds otherwise |
| `Funds.WithinLimitIff` | model/model.go:178-205 | with a positive limit it goes through iff it leaves at least minus the rounded limit, and is refused as beyond it otherwise |
| `Funds.UnlimitedGoesThrough` | model/model.go:153-160 | overdraft without a limit needs no funds |
| `Funds.RunKeepsFree` | transaction_execution.go:321-366 | over every run of postings, holds, commits, voids and rebuilds, a balance whose debits allow no overdraft never has more on hold than it has settled; with limits it falls short by at most the largest of them |
| `Funds.BatchKeepsFree` | transaction_coalescing.go:179-270 | the same for every batch that is stored, also with self-transfers in it |
| `Funds.InterleavingsKeepFree` | database/balance.go:867-1054 | the same over every interleaving of workers with batches, commits and voids, however stale the queued debits they decide on |
| `Storage.Datasource.UpdateBalance` | database/balance.go:867-899 | compare-and-set on the version: it takes effect iff the stored version is the one read, and bumps the object's version only then |
| `Storage.Datasource.WriteRow` | database/balance.go:937-1026 | the guarded update of one row |
| `Storage.Datasource.UpdateMatching` | database/balance.go:937-1054 | the rows of a chunk that are reported updated are exactly those whose version matched |
| `Storage.Datasource.UpdateBalanceChunk` | database/balance.go:937-1054 | a chunk succeeds iff every one of its writes would apply in sequence |
| `Storage.Datasource.WriteChunks` | database/balance.go:901-935 | the loop over chunks of 1000 succeeds iff one update of the whole set would, with the same table |
| `Storage.Datasource.CollectUnique` | database/balance.go:901-913 | the distinct non-nil balances with an id, in order |
| `Storage.Datasource.BumpVersions` | database/balance.go:930-935 | each distinct balance is bumped once |
| `Storage.Datasource.UpdateBalanceSet` | database/balance.go:901-935 | succeeds iff every distinct balance is at its stored version; then every one is written and bumped once |
| `Storage.ChunksCompose` | database/balance.go:901-935 | splitting a list of writes anywhere changes neither its outcome nor whether it applies |
| `Storage.WrittenAt` | database/balance.go:937-1054 | writing distinct rows one by one is one simultaneous guarded update |
| `Storage.ApplicableIsCurrent` | database/balance.go:937-1054 | for distinct rows, being applicable in sequence is the same as all versions being current at the start |
| `Storage.SameRowPairConflicts` | database/balance.go:867-899 | two writes of one row at one read version never both land, for every table |
| `Storage.Datasource.InsertRows` | database/transaction.go:108-190 | rows are inserted iff no reference repeats; otherwise nothing is |
| `Storage.Datasource.RecordTransactionWithBalances` | database/transaction.go:261-315 | both guarded balance updates and the row, all or nothing |
| `Storage.Datasource.RecordTransactionsWithBalanceSet` | database/transaction.go:326-367 | every touched balance once and every row, all or nothing |
| `Execution.SingleEffect` | transaction_execution.go:662-758 | what a successful single posting does to the store: one finalized row, two balances at version + 1, nothing else |
| `Execution.SelfTransferFailsAlone` | transaction_execution.go:662-758 | on the single path a self-transfer of a nonzero amount fails in every store |
| `Execution.SingleAdds` | transaction_execution.go:189-213 | nothing for an amount of zero, otherwise one row: the fields of the transaction, INFLIGHT if it is inflight, otherwise VOID for a void, APPLIED for what was queued, scheduled, applied or a commit, and no status for anything else |
| `Execution.QueuedDebitMonotone` | database/transaction_queue.go:34-75 | storing outcomes never raises the queued debit of a balance, so a check that passed against the older figure still passes |
| `Execution.OutcomeEndsQueuedDebit` | database/transaction_queue.go:34-75 | a row stored under a queued transaction takes its amount off the queued debit of its source, and off no other, iff it is applied, rejected, void or held and the first such row there |
| `Execution.OtherRowQueues` | database/transaction_queue.go:34-75 | any other row changes no queued debit, except that a queued one adds its amount to its source |
| `Execution.BalanceIdsComplete` | transaction_coalescing.go:383-403 | the ids to lock and load are distinct and are exactly the non-empty ones mentioned |
| `Execution.BatchRefinesRun` | transaction_coalescing.go:179-270 | a batch that succeeds: running the single path over it in order succeeds too, with the same rows, the same amounts on every balance, and each touched version bumped once instead of once per touch |
| `Execution.BatchMatchesRunIff` | transaction_coalescing.go:179-270 | a successful batch could have been run one by one iff it holds no self-transfer |
| `Execution.RunGivesBatch` | transaction_coalescing.go:179-270 | both directions, with queued checks on or off: a list is stored as a batch and holds no self-transfer iff it runs one by one and every member can also be paid for with the queued debit of the start |
| `Execution.BatchFollowsRunIff` | transaction_coalescing.go:179-270 | given that the members run one by one, the batch succeeds iff they are funded from the start in that sense |
| `Execution.UncheckedIsFunded` | transaction_execution.go:662-758 | with queued checks off that is always so |
| `Execution.BatchAsks` | transaction_coalescing.go:130-270 | what is refused: in a stored batch all members have one currency, and each has a reference that is neither stored nor shared, a positive amount and two stored balances |
| `Execution.BatchAdds` | transaction_coalescing.go:242-270 | a stored batch adds exactly the rows of its members, in order, each with the id, parent, reference, ends, amount and currency of its member and the status it is due |
| `Execution.QueuedBatchRefused` | database/transaction_queue.go:34-75 | a balance of 30 with two originals of 10 queued: one by one both copies go through, as a batch the second is refused |
| `Execution.QueuedBatchDiverges` | transaction_coalescing.go:179-270 | such a store exists |
| `Execution.PaidPairDiverges` | transaction_coalescing.go:179-270 | of two queued transactions from one balance, the second a self-transfer, with enough at hand for both: a batch stores them, one by one the second is refused |
| `Coalescing.CopyReferenceInjective` | transaction_queue.go:379-385 | different originals have different copy references |
| `Coalescing.SiblingDecidedAlikeIff` | transaction_coalescing.go:600-614 | a sibling reloaded from its row is accepted or refused as the original would be, with the same effect, against every balance, iff its overdraft limit is zero or never mattered |
| `Coalescing.CopiesEligible` | transaction_coalescing.go:303-346 | every sibling that gets into a batch passes the coalescing filter |
| `Coalescing.CopiesArePicked` | transaction_coalescing.go:321-346 | a batch copies exactly the siblings that are queued, have ends and a currency, and are not atomic, split, scheduled or past the queue, each once and in order; a copy has the id generated for it, the original as parent, its reference with the suffix, and its ends, amount, currency and inflight flag |
| `Coalescing.PlannedIff` | transaction_coalescing.go:46-126 | a batch is looked for exactly when coalescing is on or forced, the configured size is at least two, and the leader is a queue copy that may be batched; no batch is larger than configured or than 10000 |
| `Coalescing.BuiltFromFirst` | transaction_coalescing.go:303-320 | a batch is built from the first scope that yields, among the oldest siblings there is room for, one that may join, and takes those; there is none if no scope does or a lookup fails before |
| `Coalescing.BuildForScope` | transaction_coalescing.go:321-346 | the leader first, then copies of the eligible siblings in order, up to the limit; what a copy is, and of which siblings, is CopiesArePicked |
| `Coalescing.BuildBatch` | transaction_coalescing.go:303-320 | pair, source, destination scope: the first that yields two; a failed lookup ends the search |
| `Coalescing.BuiltBatchShape` | transaction_coalescing.go:303-346 | a built batch has between two and the configured number of members, starts with the leader and is all eligible |
| `Coalescing.SelfTransferDiverges` | transaction_coalescing.go:46-126 | two originals waiting in the queue, the second a self-transfer of the first one's source, are coalesced into a batch that is stored, while their copies one by one are refused |
| `Coalescing.SelfTransferCanWait` | transaction_coalescing.go:303-346 | such a ledger exists |
| `Coalescing.Blnk.GetBalance` | transaction_execution.go:662-690 | a fresh object with the stored amounts, version and queued debit, or not found |
| `Coalescing.Blnk.RecordTransactionSingle` | transaction_execution.go:491-557 | the single path on objects is the specified one, error for error; a failure leaves the store unchanged |
| `Coalescing.Blnk.CollectBalanceIds` | transaction_coalescing.go:383-403 | the loop over the batch collects the specified ids in first-mention order |
| `Coalescing.Blnk.LoadBalances` | transaction_coalescing.go:429-460 | every id is loaded into one fresh object with the stored fields, or the load fails |
| `Coalescing.Blnk.ReferenceSets` | transaction_coalescing.go:476-495 | the prefetched references and which of them are already stored |
| `Coalescing.Blnk.ValidateReference` | transaction_coalescing.go:497-536 | whichever way it finds out: refused iff empty, already in this batch, or already stored |
| `Coalescing.Blnk.ApplyKeyed` | transaction_coalescing.go:462-474 | applying to the two named shared objects is posting on the map of their values |
| `Coalescing.Blnk.PrepareTransaction` | transaction_coalescing.go:242-270 | one member against the shared balances: reference, apply, finalize, in the order and with the errors of the specification |
| `Coalescing.Blnk.PrepareAll` | transaction_coalescing.go:179-221 | all members in order against the same objects |
| `Coalescing.Blnk.PersistLoaded` | transaction_coalescing.go:179-221 | preparing and storing what was loaded |
| `Coalescing.Blnk.PersistBatch` | transaction_coalescing.go:130-221 | the whole batch under its lock is the specified batch; a failure of any kind leaves the store unchanged |
| `Coalescing.Blnk.TryRecordBatch` | transaction_coalescing.go:46-126 | handled iff a batch can be built and stored; then the store is what the batch makes it, otherwise it is untouched |
| `Coalescing.Blnk.ProcessQueued` | transaction_execution.go:400-445 | the batch where there is one that can be stored, otherwise exactly the single path on the leader |
| `Coalescing.Blnk.LeaderIsExecuted` | transaction_execution.go:400-445 | no queued copy is lost by coalescing: it is executed whenever the single path would execute it, and then the first row added is its own, with its ends, amount, currency, reference and due status |
| `Kernel.StepKeeps` | transaction_execution.go:321-366 | every insert, posting, hold, commit, void, net roll and recompute keeps the ledger invariant: stored credit and debit equal the APPLIED rows plus the rows stored without a status, holds equal the replay of live INFLIGHT rows, and every INFLIGHT amount is committed, voided or still held |
| `Kernel.RunKeeps` | transaction_execution.go:321-366 | the same over every run |
| `Kernel.AppliedReplaysIff` | database/balance.go:1481-1521 | in a reachable ledger the APPLIED rows alone explain a balance iff no net roll has touched it |
| `Kernel.RollFreeRunReplays` | transaction_execution.go:321-366 | a run without net rolls is at every moment the replay of its APPLIED rows |
| `Kernel.EmptyLedgerHolds` | transaction_execution.go:321-366 | an empty ledger satisfies the invariant, so every reachable one does |
| `Kernel.RecordKeeps` | transaction_execution.go:662-758 | a posted or held transaction keeps it |
| `Kernel.ChildKeeps` | transaction_inflight.go:503-577 | a commit or void child keeps it |
| `Kernel.InsertKeeps` | database/transaction.go:108-190 | a row that moves nothing keeps it |
| `Kernel.BatchKeeps` | transaction_coalescing.go:179-221 | a coalesced batch keeps it, because it refines the single path |
| `Inflight.SumHolds` | database/brokerage.go:429-496 | the two sums of the rebuild query: what the live INFLIGHT rows on each side still hold after commits and voids |
| `Inflight.RebuildHolds` | database/brokerage.go:429-496 | the rebuild as it writes: the three hold fields and the version of one balance, nothing else |
| `Kernel.RecomputeIsNoOp` | database/brokerage.go:429-496 | in every reachable ledger, also after settlements, rebuilding the holds of a balance changes its version and nothing else |
| `Kernel.RecomputeRepairs` | database/brokerage.go:429-496 | and whatever has become of the three hold columns and the version of a balance, rebuilding puts them right |
| `Kernel.ZeroSum` | transaction_execution.go:321-366 | all balances of a reachable ledger sum to zero, and so do all inflight amounts, also after settlements |
| `Kernel.HoldIsRemainder` | transaction_inflight.go:563-577 | without a void, what an INFLIGHT row holds is its amount minus its committed children |
| `Kernel.CommitSucceedsIff` | transaction_inflight.go:187-225 | in a reachable ledger a commit succeeds iff the row is INFLIGHT, not voided, not fully committed, the amount lies between 0 and the remainder, and the child reference is free |
| `Kernel.CommitTakes` | transaction_inflight.go:276-364 | a commit adds one child of exactly the requested amount, or of exactly the remainder for 0 |
| `Kernel.CommitAdds` | transaction_inflight.go:391-428 | that child has the ends and currency of the INFLIGHT row, its id as parent, the new id and reference, status APPLIED, is not inflight and is dated when it is made |
| `Kernel.VoidAdds` | transaction_inflight.go:589-613 | a void adds one such child, with status VOID and everything that was not committed |
| `Kernel.VoidSucceedsIff` | transaction_inflight.go:447-491 | a void succeeds iff something is still held and nothing was voided, and the reference is free |
| `Kernel.CommitAnswers` | transaction_inflight.go:187-225 | which refusal a commit meets: not inflight, voided, fully committed, negative, beyond the original, beyond what is left, reference taken, in this order; otherwise it succeeds |
| `Kernel.VoidAnswers` | transaction_inflight.go:447-491 | the same for a void: not inflight, voided, fully committed, reference taken |
| `Kernel.ClosedStep` | transaction_inflight.go:503-577 | no step adds a child to a transaction that holds nothing |
| `Kernel.ClosedForever` | transaction_inflight.go:503-577 | after a void or a full commit no run ever adds a child |
| `Kernel.TakesStays` | transaction_inflight.go:187-225 | what a commit or void has validated still holds as long as nobody else files a child under the same transaction |
| `Concurrency.SubmittedIsAtomic` | database/balance.go:867-1054 | a worker's write that is accepted equals an indivisible read-compute-write at that moment |
| `Concurrency.NoLostUpdate` | database/balance.go:867-1054 | over every interleaving of workers, the store is the sequential fold of the accepted transactions in commit order |
| `Concurrency.OvertakenFails` | database/balance.go:867-899 | a worker whose read of any row it writes has been overtaken stores nothing |
| `Concurrency.AtomicIsSingle` | transaction_execution.go:662-758 | for one transaction the indivisible write is the single path |
| `Concurrency.AtomicRefinesRun` | transaction_coalescing.go:179-221 | a batch written in one step stands, in rows and amounts, where its members one by one would, each with the queued debit it was read with |
| `Concurrency.InterleavingsKeepKernel` | transaction_execution.go:662-758 | every interleaving of workers with their batches, commits, voids and stale queued debits keeps the ledger invariant |
| `References.CopiesAreFiledRight` | transaction_coalescing.go:321-346 | sibling copies carry the copy reference of the original they are filed under, and its ends, amount, currency and inflight flag |
| `References.RunStaysOrderly` | transaction_queue.go:379-385 | in every interleaving, unique references and right filing are kept: whatever is stored under a queued original has its copy reference and its deal |
| `References.AtMostOneOutcome` | transaction_queue.go:379-385 | in every interleaving of events that file copies right, at most one row is ever stored for a queued original, and its effect is committed at most once: never both applied and rejected; that row has the original's source, destination, amount and currency, and is rejected, or held if the original is inflight and applied if it is not |
| `References.ActIsProper` | transaction_queue.go:379-385 | queue workers, recovery, batches of a leader with stored siblings, and rejections all file their copies under the right reference and with the deal of the original |
| `References.ActorsAtMostOneOutcome` | transaction_coalescing.go:46-126 | so in every interleaving of these actors a queued original has at most one stored outcome and moves balances at most once, and that outcome has the original's source, destination, amount and currency and, unless rejected, its inflight flag |
| `References.SingleSettles` | transaction_execution.go:662-758 | the single path leaves the reference behind when it succeeds and has found it there when it reports a duplicate |
| `References.BatchSettles` | transaction_coalescing.go:179-221 | a stored batch leaves its leader's reference behind |
| `References.Recovery.Reject` | transaction_rejection.go:34-53 | one rejected row, unless the copy reference is taken, which counts as done; no balance changes |
| `References.Recovery.Replay` | queue_recovery.go:204-224 | the executor's outcome, except that a duplicate reference counts as done |
| `References.Recovery.ProcessStuck` | queue_recovery.go:160-224 | one pass: rejected past three attempts; given up without record in an atomic group whose siblings cannot be looked up or include a rejected one; otherwise replayed, and the attempt counted if recording it succeeds; success means settled |
| `References.Recovery.Recover` | queue_recovery.go:136-156 | a sweep goes on past failures; every original that is not skipped and whose attempt is recorded ends settled or one pass nearer, and none ends further |
| `InflightActions.LegReferenceInjective` | transaction_inflight.go:624-629 | under one action id different legs get different references, and the commit and the void of one leg do too |
| `InflightActions.AtMostOneChildPerLeg` | transaction_inflight.go:624-734 | over any number of attempts with any faults and any other activity in between, each leg gains at most one child from one action id |
| `InflightActions.EmptyActionIdRepeats` | transaction_inflight.go:624-629 | with an empty action id the reference is random, and a fault after the write makes a retry commit twice |
| `InflightActions.CommitVerdict` | transaction_inflight.go:634-644 | the class of a commit error against the state of the leg |
| `InflightActions.VoidVerdict` | transaction_inflight.go:634-644 | the class of a void error against the state of the leg |
| `InflightActions.LegVerdict` | transaction_inflight.go:672-680 | a leg whose result does not ask for a retry is done: handled by this action, terminal, or short of the amount |
| `InflightActions.AttemptSettles` | transaction_inflight.go:689-734 | an attempt that is not retryable leaves every collected leg done |
| `InflightActions.EachLegTried` | transaction_inflight.go:689-734 | no leg stands in the way of another: one reached without a fault of its own, and not with a negative amount, is done after the attempt whatever happens to the others |
| `InflightActions.FaultFreeRetryIff` | transaction_inflight.go:689-734 | without faults an attempt asks for a retry iff a negative amount is committed on a leg still open, and then nothing changes: it is retried for ever |
| `InflightActions.Draft.Finalize` | transaction_inflight.go:563-618 | the fetched original turned into the child: parent, id, reference, status, no longer inflight |
| `InflightActions.Service.CommitWithRef` | transaction_inflight.go:187-225 | the imperative commit is the specified one, error for error |
| `InflightActions.Service.VoidWithRef` | transaction_inflight.go:447-491 | the imperative void is the specified one |
| `InflightActions.Service.CollectLegs` | transaction_inflight.go:650-667 | paging returns every matching leg once, in order |
| `InflightActions.Service.ApplyToLeg` | transaction_inflight.go:672-680 | one leg with its fault |
| `InflightActions.Service.RunByParent` | transaction_inflight.go:689-734 | the loop over all legs; it asks for a retry iff some result does, after trying them all |
| `Allocation.Sequential` | lineage_allocation.go:108-149 | the loop draws on each source what the ones before it left open, up to its balance |
| `Allocation.SequentialCovers` | lineage_allocation.go:108-149 | the sum is min(amount, total) |
| `Allocation.DrainedBeforeUsed` | lineage_allocation.go:108-149 | no source is exceeded, and every source before a used one is fully drained |
| `Allocation.AgeOrder` | lineage_allocation.go:79-98 | FIFO drains the older, LIFO the newer sources first, whatever the sort does with ties |
| `Allocation.AscendingIsUnique` | lineage_allocation.go:79-98 | with distinct creation times the sort has one possible outcome |
| `Allocation.MirrorOrder` | lineage_allocation.go:79-98 | with distinct creation times LIFO is FIFO reversed |
| `Allocation.FifoMirrorsLifo` | lineage_allocation.go:79-149 | and what LIFO draws is what is left of the amount after everything newer in FIFO order |
| `Allocation.Calculate` | lineage_allocation.go:79-98 | dispatch on the strategy; for distinct ids the result is what StrategyGives says |
| `Allocation.StrategyGives` | lineage_allocation.go:79-216 | FIFO and LIFO: no source is given more than it has, one is given something only if every strictly older, or newer, one is given all it has, and together they are given min(amount, total). Proportional: with E = min(amount, total) each source but the last is given g with g * total <= E * balance < (g + 1) * total, and the last what is left, up to its balance |
| `Allocation.ProportionalAllocation` | lineage_allocation.go:159-216 | the loop with floored shares and the capped last source |
| `Allocation.ProportionalBounds` | lineage_allocation.go:159-216 | each allocation is at most its source, the sum is at most E = min(amount, total), the shortfall is at most max(0, n - 2), and none when E = total |
| `LineageDebit.Processor.GetSources` | lineage_allocation.go:29-67 | the mappings with positive availability, in order |
| `LineageDebit.SourcesArePicked` | lineage_allocation.go:29-67 | the sources are exactly the mappings whose shadow has something available, each once, in order, with all that is available there |
| `LineageDebit.Processor.RemainingDebitAmount` | lineage_debit.go:126-144 | the amount minus the releases found for the mappings |
| `LineageDebit.ReleasedIsTotal` | lineage_debit.go:126-144 | that sum over the mappings is the sum over all posted releases |
| `LineageDebit.OneReleaseHealthy` | lineage_debit.go:283-305 | posting a release for a provider that has none keeps releases distinct and mapped and adds exactly its amount to the total |
| `LineageDebit.Processor.PrepareDestination` | lineage_debit.go:157-173 | the destination shadows as looked up before the locks: all of them, or none if one lookup fails |
| `LineageDebit.PreparedReaches` | lineage_debit.go:55-73 | an attempt can post the receive of a provider iff the destination tracks lineage and the shadows of all mapped providers were found |
| `LineageDebit.Processor.ProcessDestination` | lineage_debit.go:322-356 | posting a receive, if the destination has a shadow for the provider in this attempt |
| `LineageDebit.Processor.ProcessAllocations` | lineage_debit.go:240-268 | the loop over the allocations, dying after any number of postings |
| `LineageDebit.Processor.CalculateAllocation` | lineage_allocation.go:79-98 | the allocation of what remains, by age or by share as the strategy says |
| `LineageDebit.Processor.ProcessDebit` | lineage_debit.go:31-111 | one whole attempt, with the destination as it could be prepared; a failing lookup stops it where it is |
| `LineageDebit.ProcessedAddsAtMost` | lineage_debit.go:240-268 | an attempt releases at most what it allocated, each provider at most once |
| `LineageDebit.AllocsWithinAmount` | lineage_allocation.go:79-98 | no strategy hands out more than it is asked for, and only positive amounts |
| `LineageDebit.AttemptWithinAmount` | lineage_debit.go:83-144 | an attempt keeps the total within the amount |
| `LineageDebit.NeverOverReleased` | lineage_debit.go:83-144 | under any schedule of crashes, retries, destinations found or not, and interleaved changes of availability, the total released never exceeds the amount and no provider is released twice |
| `LineageDebit.MissedReceiveStaysMissed` | lineage_debit.go:240-268 | a receive that did not follow its release is posted by no later attempt of any schedule |
| `LineageDebit.ReceivesKeepUp` | lineage_debit.go:240-268 | one attempt, whatever its destination: receives keep up with releases unless a due release is posted and the attempt stops right after it or has no shadow for its provider; then that receive is missing |
| `LineageDebit.ReceivesMatchIff` | lineage_debit.go:55-268 | over any schedule, each attempt with its own destination, the receives match the releases at the end iff every posted release was followed by its receive in the same attempt |
| `LineageDebit.UnpreparedLosesReceive` | lineage_debit.go:65-68 | a destination whose preparation failed: nothing dies, the release is posted without its receive, and a second attempt with the shadow at hand changes nothing |
| `LineageRetry.OrderIsLine` | database/lineage.go:57-63 | with distinct creation times the sources come in one draining order |
| `LineageRetry.AttemptIsRetry` | lineage_debit.go:83-144 | an attempt of the model above, whatever its sort returned, is a retry in that order |
| `LineageRetry.UninterruptedIsFull` | lineage_debit.go:240-268 | what one uninterrupted run releases, position by position |
| `LineageRetry.SingleIff` | lineage_debit.go:240-268 | one source is enough, judged on the levels and the amount, iff the uninterrupted run draws on at most one |
| `LineageRetry.ConvergesIff` | lineage_debit.go:83-144 | every crash-and-retry schedule ends with the releases of one uninterrupted run iff receives stay off the source shadows, or one source is enough, or the amount is at least twice the total less the last source |
| `LineageRetry.Diverges` | lineage_debit.go:240-268 | otherwise there is a schedule of one crash that ends differently |
| `LineageAccounting.CreditMoves` | lineage_credit.go:146-174 | a credit always posts and moves the availability of one provider and the aggregate of one identity, nothing else |
| `LineageAccounting.ReleaseNeverOverdraws` | lineage_debit.go:283-305 | a release within the availability always posts: the aggregate covers it |
| `LineageAccounting.AllocsFit` | lineage_allocation.go:79-98 | what any strategy hands out fits what is available |
| `LineageAccounting.SpendMoves` | lineage_debit.go:240-431 | a debit posts in full and moves exactly what it drew, provider by provider |
| `LineageAccounting.SpendUpToKeeps` | lineage_debit.go:240-268 | an attempt that passes over released providers and dies after any number of postings keeps the books |
| `LineageAccounting.UpToTheEnd` | lineage_debit.go:240-268 | an attempt that does neither is the whole debit |
| `LineageAccounting.RunStaysAccounted` | lineage_debit.go:240-431 | over every run of credits and attempts at debits, crashed anywhere and retried, no posting is refused, each aggregate is the sum of its availabilities and none is negative |
| `LineageAccounting.EmptyIsAccounted` | lineage_credit.go:146-174 | the empty book satisfies that |
| `LineageAccounting.DebitConserves` | lineage_debit.go:322-356 | a debit to a tracked destination conserves each provider's total availability; to an untracked one it lowers it by what was drawn |
| `HashChain.CanonicalOrder` | model/chain.go:53-68 | the hashed string, field by field: the hash before, id, source, destination, amount, precise amount, currency, status, reference, creation time |
| `HashChain.PlainIsUnique` | model/chain.go:53-68 | a row whose fields hold no separator is the only row with its canonical string |
| `HashChain.SeparatorMoves` | model/chain.go:53-68 | a separator inside a field lets its head or tail change places with a neighbour, and nothing else changes |
| `HashChain.Twin` | model/chain.go:31-68 | a row with a separator in a text column has a twin with the same amounts and time and the same hash |
| `HashChain.PinnedIffPlain` | model/chain.go:53-68 | among all rows the columns can hold, a row is pinned down iff no field contains the separator |
| `Sealing.Datasource.ScanPending` | database/chain.go:40-97 | the scan links pending rows in table order up to the batch size, with the running head |
| `Sealing.Datasource.WriteLinks` | database/chain.go:107-117 | the links are written to their rows and to no others |
| `Sealing.Datasource.ChainPendingTransactions` | database/chain.go:40-133 | one sealing call |
| `Sealing.SealsTheOldest` | database/chain.go:40-97 | an unsealed row is sealed by a batch iff it was created before the cutoff and fewer unsealed rows created before it precede it in id order than the limit; a sealed row stays as it is |
| `Sealing.Datasource.ProcessTick` | chain_worker.go:131-144 | a tick of up to fifty batches, stopping early, is one batch of fifty times the size |
| `Sealing.SealExtends` | database/chain.go:40-133 | a batch extends the chain: sealed rows stay in bijection with 1..last_seq, each linked to its predecessor |
| `Sealing.InsertKeeps` | database/chain.go:40-133 | an insert anywhere in the table keeps the chain |
| `Sealing.RunKeepsChain` | database/chain.go:40-133 | so does every run of inserts and seals with any cutoffs and sizes, and the earlier chain is a prefix |
| `Sealing.BatchesCompose` | database/chain.go:40-133 | two batches with one cutoff are one batch of their joint size |
| `Sealing.BatchingIrrelevant` | database/chain.go:40-133 | however a pending set is cut into batches the chain is the same |
| `Sealing.CaughtUp` | chain_worker.go:131-144 | a batch that does not fill up has caught up, so stopping there is right |
| `Verifier.RepresentedReadsBack` | database/chain.go:150-181 | reading the sealed rows in order gives the chain the table represents |
| `Verifier.ReachableIsAccepted` | chain_worker.go:171-218 | every reachable chain is accepted, also against an earlier bookmark |
| `Verifier.VerifiesFromEmpty` | chain_worker.go:171-218 | from an empty table on, after any inserts and seals, the table reads back as rows that are accepted, against the bookmark of any earlier moment |
| `Verifier.VerifyPage` | chain_worker.go:187-210 | one page: it stops at the first link that does not hold and names it |
| `Verifier.VerifyChain` | chain_worker.go:171-218 | terminates, and verifies iff the rows at positive positions, as read at the end, pass every link and, at the recorded length, the recorded head; a reported break is the first link that fails, a head mismatch a whole chain of the recorded length; rows at a position of 0 or less are never looked at |
| `Verifier.VerifiesWhileSealing` | chain_worker.go:171-218 | with sealing between page reads every chain it can see is accepted |
| `Verifier.SameHeadSameChain` | chain_worker.go:177-217 | equal heads at equal length mean equal chains below |
| `Verifier.TamperEvident` | chain_worker.go:177-217 | two tables that verify against one genesis, length and head agree in every hashed string, and in every field of rows without separators |
| `Verifier.TwinIsAccepted` | chain_worker.go:177-217 | exchanging a row for its twin goes unnoticed |
| `Verifier.TamperEvidentIff` | chain_worker.go:177-217 | an accepted table is the only one with its genesis, length and head iff no field of it contains a separator |
| `Verifier.ShorterIsNotCompared` | chain_worker.go:211-215 | any proper prefix of a valid chain is accepted: the head is compared only at the recorded length |
| `Settlement.Settler.CollectLegs` | brokerage.go:680-696 | the pending security legs of the bucket, buys before sells |
| `Settlement.BuysBeforeSells` | brokerage.go:680-776 | the order of the commits: the pending buys of the bucket and then its pending sells, each side in row order and complete, each money leg right before its security leg, and nothing else |
| `Settlement.Settler.Commit` | brokerage.go:767-776 | commits in order; a failure leaves exactly the commits before it and is the failure of the next |
| `Settlement.Settler.NetRollToSpot` | brokerage.go:883-915 | the net roll |
| `Settlement.Settler.SettleBucket` | brokerage.go:661-722 | the whole settlement of a bucket, with what remains of it after a failure |
| `Settlement.CommitAllMoves` | brokerage.go:767-776 | committing a list moves, on every balance, the sum of what its members held at the start |
| `Settlement.MembersEmptied` | brokerage.go:767-776 | a committed member holds nothing any more |
| `Settlement.CommitAllSucceedsIff` | brokerage.go:767-776 | in a reachable ledger a list can be committed iff each member still holds something at the start and the generated references are new: no commit stands in the way of another |
| `Settlement.StoppedAt` | brokerage.go:704-717 | a failure ends the list: what was committed before it is all there is |
| `Settlement.RollMoves` | brokerage.go:883-915 | the roll succeeds iff there is nothing to roll or its reference is free; it zeroes the bucket and moves its balance, of either sign, to spot |
| `Settlement.RollKeeps` | brokerage.go:883-915 | the roll keeps the ledger invariant |
| `Settlement.SettlementNets` | brokerage.go:661-722 | the bucket ends at zero and spot changes by the prior bucket balance + buys - sells |
| `Settlement.SettlementKeeps` | brokerage.go:661-722 | a settlement keeps the ledger invariant and moves on every other balance just what its commits bring there |
| `SettlementRun.SettlementRunNets` | brokerage.go:922-957 | over a run that goes on past failures, judged on the ledger before it: a settled bucket ends at zero, a failed one has had the first few of its commits and no roll, every spot balance gains the sum of what its settled buckets held plus buys minus sells, and the ledger can be settled again |
| `SettlementRun.SettleOne` | brokerage.go:661-722 | one bucket: its commits as far as they get, and the roll if all of them do |
| `SettlementRun.RunSettlement` | brokerage.go:922-957 | the loop over the matured buckets, which a failed one does not end |
| `Settlement.OrderIrrelevant` | brokerage.go:661-722 | in whatever order the legs are committed it goes through if it does in one, and every balance ends the same |
| `Settlement.SettlementConserves` | brokerage.go:661-722 | the ledger still sums to zero |
| `Settlement.SecondSettlementIsNoOp` | database/brokerage.go:727-778 | no leg is left pending and settling again changes nothing |
| `Settlement.RollIsNotReplayed` | brokerage.go:883-915 | the roll is stored without a status, so replaying the APPLIED rows survives it iff the net was zero |
| `Tradable.Desk.SellTrade` | brokerage.go:237-380 | a sell is accepted iff its date is still covered with the sell booked |
| `Tradable.PassesIff` | brokerage.go:255-274 | the check lets a quantity through iff the date is still covered with that sell booked: nothing is refused that could be delivered |
| `Tradable.LegMovesTradable` | model/brokerage.go:271-281 | a leg changes what is tradable from its date on and not before: a sell takes its quantity, a buy adds it on an instrument that trades on the way and nothing on any other |
| `Tradable.Desk.SettleBucket` | brokerage.go:661-722 | a bucket nets to spot |
| `Tradable.Desk.RunSettlement` | brokerage.go:922-957 | the loop over matured dates; a failed one is skipped |
| `Tradable.SellKeepsIff` | brokerage.go:255-274 | an accepted sell leaves every date covered iff the quantity is covered through every later date too |
| `Tradable.OrderedSellKeeps` | brokerage.go:255-274 | that is so when no sell is pending for a later date |
| `Tradable.LaterThenEarlierOversells` | brokerage.go:128-157 | a sell for a later date and then one for an earlier date, both accepted, oversell: the claim in the comment does not hold |
| `Tradable.BuyKeeps` | brokerage.go:491-609 | a buy leaves every date covered |
| `Tradable.SettleKeepsIff` | brokerage.go:661-722 | a settlement leaves every date covered iff the dates before it are covered with its net added |
| `Tradable.OrderedSettleKeeps` | brokerage.go:661-722 | that is so for the earliest bucket |
| `Tradable.LateBucketFirstOversells` | brokerage.go:661-722 | settling a later bucket first can oversell an earlier date |
| `Tradable.OrderlyRunsNeverOversell` | brokerage.go:183-228 | over every run with sells in order of settle date and settlements in order of date no date is oversold, in both instrument modes |
| `Tradable.CompleteRunIsOrderly` | database/brokerage.go:257-284 | a settlement run over all matured dates without a failure is in order |
| `Positions.GetTradable` | brokerage.go:183-228 | the sums over the stored future buckets: what is reported is what the stored balances leave by the date, or nothing if that is negative, and exactly the quantities up to it pass the check |
| `Positions.SellTrade` | brokerage.go:237-380 | the security leg of a sell on the ledger: it passes its check iff the amount is at most what the stored balances leave by its date, and is then posted like any transaction |
| `Positions.ChecksTheLegs` | database/brokerage.go:698-721 | in a reachable ledger the stored spot balance and holds leave for every date exactly what the live legs of the position leave |
| `Positions.PassesOnLedgerIff` | brokerage.go:255-274 | the check on the legs lets a sell through iff the amount is at most what the stored balances leave by its date |
| `Positions.DealIsLeg` | brokerage.go:237-380 | posting the security leg of a trade keeps the ledger invariant and changes what is available by every date exactly as adding that leg to the position does |
| `Positions.SettlementIsSettled` | brokerage.go:661-722 | settling a bucket on the ledger changes what is available by every date exactly as settling its date in the position does, and leaves every bucket empty of settled quantity |
| `Positions.HalfSettledShifts` | brokerage.go:704-722 | while a settlement has come only part of the way, what it has delivered counts as available again and what it has received does not count, until the roll |
| `Positions.LedgerNeverOversold` | brokerage.go:183-228 | over every run of trades that pass that check and settlements on the ledger, sells and settlements in order of date, the stored balances never promise more for a date than there will be |
| `History.GetMostRecentSnapshot` | database/balance.go:1428-1471 | the latest snapshot up to the target |
| `History.LatestIsEarlier` | database/balance.go:1428-1471 | it is one of that balance, not later than the target, and none of them is later |
| `History.NoneIsEarlier` | database/balance.go:1428-1471 | there is none only if every snapshot of that balance is later than the target |
| `History.CalculateFromTransactions` | database/balance.go:1475-1571 | the loop adds what the applied rows after the start and up to the target moved |
| `History.OneRowChanges` | database/balance.go:1475-1571 | one more row changes the genesis totals of its ends at a target by exactly its amount if it is applied and its effective date, or its creation time where it has none, is after the zero time and not later than the target; otherwise it changes nothing |
| `History.EffectiveIff` | database/balance.go:1475-1571 | so the past balance of an end changes iff that date lies there |
| `History.GetBalanceAtTime` | database/balance.go:1587-1644 | from the snapshot if there is one, otherwise from the beginning |
| `History.WindowSplits` | database/balance.go:1475-1571 | replaying two adjoining windows is replaying their union |
| `History.AtTimeIff` | database/balance.go:1587-1644 | the snapshot result equals the genesis replay iff the snapshot used is accurate |
| `History.SnapshotsIrrelevant` | database/balance.go:1587-1644 | with accurate snapshots it does not matter which of them exist |
| `History.StoredSnapshotAccurateIff` | database/balance.go:1428-1471 | a snapshot of the stored totals is accurate iff every applied row of the balance is effective by its time and no net roll has touched it |
| `History.BackdatedRowBreaksSnapshot` | database/balance.go:1475-1571 | a row stored later keeps a snapshot accurate iff it is not an applied row of that balance whose effective date, or else creation time, is at or before it |
| `History.ReloadedReadsAlikeIff` | database/transaction_coalescing.go:34-72 | an original with an effective date, read back by a sibling or recovery lookup, loses it: over a window a balance reads as if it had not iff the window holds both that date and the creation time or neither, or the row does not count there |
| `History.ReloadedHistoryAlikeIff` | database/transaction_recovery.go:33-75 | a balance at every past time reads the same iff the original was not dated back or forward |
| `Claiming.Matcher.MatchSingle` | reconciliation.go:892-934 | the first key that fits and is still open, all before it not fitting or taken, is claimed and all its members are sent, once and in order |
| `Claiming.Matcher.ProcessSingle` | reconciliation.go:853-879 | a single that claims nothing is reported unmatched, and only then |
| `Claiming.StepHolds` | reconciliation.go:892-934 | every atomic action of every worker keeps: one owner per group, owned or open, emitted exactly so far |
| `Claiming.RunHolds` | reconciliation.go:853-934 | the same over every interleaving |
| `Claiming.EveryoneSettled` | reconciliation.go:853-934 | when all workers are done, each group has at most one owner, each single at most one group, every member of a claimed group was emitted exactly once, and each single is an owner or unmatched exactly once |
| `Claiming.NothingMissed` | reconciliation.go:892-934 | a single reported unmatched fits only groups that somebody else has claimed |

## Left out

- HTTP handlers, configuration, command line, webhooks, search indexing, metrics, tracing, hooks and
  file upload: no property to prove.
- Redis locks, asynq and the inside of Postgres: a lock or a database transaction is one atomic step.
- `sort.Strings` over lock ids only orders the acquisition of locks, which are one step here.
- Identity tokenization, accounts, API keys, metadata merging and the order lifecycle: thin wrappers.
- `UpdateBalance` of the public data source has no version check, and `ApplyBalanceDeltas` writes no
  rows; neither takes part in the replay property.
- `CommitInflightTransactionWithQueue`, commits of originals still QUEUED, and inflight rows found only
  in the queue: the committed sum does not see commits that are still queued.
- Split transactions (`processSplitTransactions`, `updateSplitTransactions`).
- The SQL filters of the sibling, stuck-row and leg lookups: their answers are parameters, and every
  claim holds for any answer whose rows are stored as the claim says.
- Floating point: an overdraft limit times a precision factor is exact here.
- Weighted-average price, lots and journals in settlement, and a rerun after a crash inside it.
- Floats, Levenshtein distance and matching bounds in reconciliation: whether a single transaction fits
  a group is a parameter. One batch of groups is modelled, not the loop over batches.
- Lineage keys that collide when an indicator contains the separator: balances are keyed by identity
  and provider.
- A database error in the middle of a sealing tick: the tick ends early, between two batches.
- Funds.RunKeepsFree: every transaction that debits the balance must keep to the floor; one with unlimited overdraft
  may take it anywhere.
- Funds.InterleavingsKeepFree: the same, with the limits of Concurrency.InterleavingsKeepKernel.
- Concurrency.InterleavingsKeepKernel: batches with self-transfers are not in the interleavings, and a commit or
  void is taken to be valid when it is stored, as the lock on its transaction ensures (Kernel.TakesStays).
- Kernel.RunKeeps: the id of a new row is taken to be fresh, an ordinary transaction is not filed under an
  INFLIGHT row, and rows inserted directly are queued, scheduled or rejected.
- References.ActorsAtMostOneOutcome: the children of a split, and commits or voids filed under an original that is
  still queued, are not among the actors.
- References.Recovery.Reject: the row only; the follow-up that fails the other members of an atomic group is not
  modelled.
- LineageDebit.Processor.ProcessDestination: the receive, without the mapping upserted beside it.
- LineageDebit.Processor.ProcessDebit: without the wait for a pending credit; a lookup that fails is a stop at that point.
- LineageRetry.ConvergesIff: stated for FIFO and LIFO debits that are not inflight, with distinct
  creation times and no other activity between the attempts; a destination either stays off every
  source shadow or receives on all of them. Availability ignores holds, so an inflight debit can be
  allocated differently. NeverOverReleased has none of these limits.
- LineageAccounting.CreditMoves: the shadow posting of a credit, on values; the mapping that is upserted
  beside it is what the debit side gets as a parameter.
- LineageAccounting.RunStaysAccounted: credits and debits that are not inflight; which providers an attempt finds
  released is a parameter of it.
- Settlement.Settler.SettleBucket: without the average price and the journal between the commits; where they fail is
  the `reach` of a bucket in SettlementRun.
- Settlement.SettlementNets: asks that each trade has a money leg of its own, and that no money leg
  touches the bucket or spot, as trades are booked; SettlementRun.SettlementRunNets asks the same across the
  buckets of a run, with one generated id a commit.
- Tradable.Desk.SellTrade: quantities only; Positions.SellTrade posts the security leg on the ledger. The money leg
  is a transaction like any other and not part of either.
- Tradable.Desk.RunSettlement: quantities only, and a failed bucket is left alone; SettlementRun.RunSettlement keeps
  the commits made before the failure, as the code does.
- Tradable.Desk.SettleBucket: quantities only; SettlementRun.SettleOne is the bucket on the ledger, and
  Positions.SettlementIsSettled says that they agree.
- Positions.LedgerNeverOversold: settlements that go through, of buckets that hold nothing settled before them; what
  one that stops halfway does to the check is Positions.HalfSettledShifts.
- Verifier.TamperEvidentIff: for tables of equal length, with an injective hash; for a table shorter than the
  recorded length the code compares no head.
- History.AtTimeIff: times are integers, and the read is one consistent transaction.
