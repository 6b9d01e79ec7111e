# High-load ledger: verification project

A Dafny model of the payment ledger and proofs of what it guarantees. `dafny verify dfyconfig.toml`
checks everything.

The committed database is a value of type `Ledger.Tables`: account rows by UUID, and the rows of
`transactions` and `postings` in the order in which they were committed. Everything else is stated
against it.

- `Uuids.dfy`: UUIDs as 128-bit values; `bytes.Compare` on the sixteen bytes is the order of the
  values, and the canonical text parses back.
- `Ledger.dfy`: the serial ledger. `Admissible` and `Apply` say what one committed transfer, opening or
  correction does to the tables; the lemmas say what every serial history keeps (amounts equal posting
  sums, `latest_posting_id`, double entry, uniqueness, conservation per currency).
- `Protocol.dfy`: any number of concurrent sessions interleaved statement by statement under READ
  COMMITTED, with row locks, key reservation and a posting-id counter that runs ahead of commits. The
  invariant says that what a session holds is always one update away from the committed rows.
- `Guarantees.dfy`: the theorems over every run: serializability, the ledger invariant, deserved
  refusals, deadlock freedom, termination, the exact effect of a correction.
- `Transfers.dfy`: the repository statements and the two use cases as in-place updates by one client
  alone, with the exact reply and effect, and the irrelevance of the update order.
- `Environment.dfy`: what happens between the statements of the worker, as a script: the commits that
  become visible before each statement, and whether the statement fails before or after taking effect.
  The script running out is cancellation. What the concurrent protocol does between two of its states is
  proved to be such a script, also while the worker holds a row lock.
- `Batches.dfy`: the log cut into batches: which postings a batch covers, how many batches a log takes.
- `Worker.dfy`: the posting worker as a class over such a script.
- `Idempotency.dfy`: the interceptor and Redis around the whole concurrent protocol.
- `Caches.dfy`: the currency cache around the whole concurrent protocol, with a validating request that
  others may interrupt between any two statements, and the transaction read cache.
- `Pool.dfy`: the load generator's account pool.
- `Load.dfy`: the load phase as a step machine of streams, queue and workers, and the life of a reservation.

Modelling choices:

- An UPDATE whose committed row fails the condition when the statement starts is refused without waiting
  for the row lock; otherwise it waits and works on the committed row (section 13.2.1 of the PostgreSQL
  documentation). Both are steps of the protocol (`Reject` and `Step`).
- A two-row INSERT of postings draws its ids in two steps, so that other sessions may draw in between.
- A session may fail at any statement, and a handler may report an error for a commit that happened or is
  still to happen. A write of the worker may take effect although it is reported as failed.
- Validating the currencies is one step of a transfer in `Protocol.dfy`; `Caches.dfy` takes it apart and
  shows that its verdict is that of the accounts table at one moment.
- A currency is a 16-bit number throughout, as it is in the service and in the tables.
- UUIDs drawn by the service are taken to be new; randomness, clocks, the network and failures are
  parameters or events.
- BIGINT columns are integers with an explicit range check where a statement can leave the range.

Where the code and its comments differ, the model follows the code: the worker's comment speaks of one
query for the sum and the balance (internal/usecase/posting_worker.go:79-82) but the code reads them in
two statements. The comment on the shutdown write of the cursor (internal/usecase/posting_worker.go:118-125)
says that it saves progress, but it runs on a context that is already cancelled and is refused. The model
also says what the write would do if it were carried out: it would move the cursor back exactly when some
batch was acknowledged and the acknowledgement of the last one was lost.

## Model

| member | source | states |
|---|---|---|
| Uuids.ByteOrder | internal/usecase/transfer.go:148-150 | comparing account ids byte by byte is a strict order that agrees with their 128-bit values, and equal bytes mean equal ids |
| Uuids.TextRoundTrip | internal/transport/grpc/interceptors/idempotency.go:96-107 | the printed form of every UUID parses back to it and is its digits in groups of 8, 4, 4, 4 and 12 |
| Uuids.ParseMeaning | internal/transport/grpc/interceptors/idempotency.go:100-107 | no text parses that is not hexadecimal digits in those groups |
| Ledger.DriftKept | internal/repository/postgres/account.go:79-123 | a transfer or an opening leaves amount minus posting sum of every account as it was, whatever it was, and a new account starts at zero |
| Ledger.BoundedSum | internal/repository/postgres/posting_worker.go:14-40 | the sum with a bound is the sum of exactly the postings within the bound, in whatever order they were committed |
| Ledger.TotalUpToPush | internal/repository/postgres/posting_worker.go:14-40 | a further posting adds its amount to that sum exactly when it is the account's and within the bound |
| Ledger.MaxIdIsLargest | internal/repository/postgres/posting_worker.go:69-73 | the version of a correction is the largest id of the account's postings, and zero without any |
| Ledger.DriftUntilCorrection | internal/usecase/posting_worker.go:226-245 | over any serial history, the drift of an account changes only when that account is corrected |
| Ledger.SoundAccountKept | internal/repository/postgres/account.go:79-123 | an account with a non-negative amount equal to its posting sum and `latest_posting_id` equal to its largest posting id stays so, also when ids commit out of order |
| Ledger.SoundKept | internal/repository/postgres/account.go:79-123 | the same for all accounts and for new ones |
| Ledger.BookedKept | internal/usecase/transfer.go:106-131 | the postings table stays the list of legs of the transactions table, and keys, transaction ids and posting ids stay unique |
| Ledger.DoubleEntry | internal/usecase/transfer.go:121-131 | the postings that carry a transaction's id are one -amount and one +amount leg for a transfer and one +amount leg for an opening, and no other |
| Ledger.TransfersCancel | internal/usecase/transfer.go:121-131 | the sum of all postings is the sum of all openings, so transfers cancel out |
| Ledger.ConservedKept | internal/usecase/transfer.go:140-162 | each currency's balances keep adding up to what its accounts were opened with |
| Ledger.BoundedAlone | internal/usecase/transfer.go:140-162 | no balance exceeds the openings of its currency |
| Ledger.Bounded | internal/usecase/transfer.go:140-162 | nor do two balances together |
| Ledger.CreditRoom | internal/repository/postgres/account.go:102-123 | while the currency fits in int64, an accepted transfer cannot overflow its destination |
| Ledger.ReplayExtends | migrations/000001_init_schema.up.sql:7-31 | committed rows stay, unchanged, and accounts keep their currency |
| Ledger.SerialHealthy | internal/usecase/transfer.go:86-167 | every serial history of openings and transfers ends in a sound and conserved ledger |
| Ledger.SerialBooked | internal/usecase/transfer.go:106-131 | every serial history, corrections included, keeps double entry and uniqueness |
| Protocol.RequestError | internal/usecase/transfer.go:186-200 | validateRequest passes exactly the well-formed requests |
| Protocol.RequestErrorMeaning | internal/usecase/transfer.go:186-200 | each of the four errors is answered exactly when the request justifies it and no earlier one |
| Protocol.AdvanceTransferOk | internal/usecase/transfer.go:86-162 | every statement of a transfer keeps the session's invariant: the rows it holds are one update away from the committed rows, its key and ids are still free |
| Protocol.AdvanceOpenOk | internal/usecase/account.go:58-115 | the same for the statements that open an account |
| Protocol.AdvanceCorrectOk | internal/usecase/posting_worker.go:226-245 | the same for a correction: its sum stays the sum of the first postings of the log, up to a recorded length |
| Guarantees.CorrectStep | internal/usecase/posting_worker.go:230-235 | the read records the length of the log and the posting total at that moment, the UPDATE the largest id at its start and the length of the log at its write |
| Protocol.AdvanceAdds | internal/usecase/transfer.go:116-162 | a statement adds at most the row it had to lock, its own new account, one fresh posting id, or its key |
| Protocol.AdvanceApart | internal/repository/postgres/account.go:79-123 | an unblocked statement leaves no two sessions sharing a row lock, a held key, a posting id or a drawn UUID |
| Protocol.CommitIsAtomic | internal/repository/postgres/transaction.go:64-70 | installing a ready session's rows equals applying its whole unit of work to the tables as they are at commit, and that unit is admissible there |
| Protocol.OtherKept | internal/repository/postgres/transaction.go:64-70 | a commit does not disturb what any other live session has done |
| Protocol.PostedHeld | internal/usecase/transfer.go:121-162 | a ready session holds the row of every account it has postings for |
| Protocol.InvKept | internal/usecase/transfer.go:86-167 | every event (arrival, statement, early refusal, commit, failure) keeps the whole protocol invariant |
| Guarantees.Serializability | internal/usecase/transfer.go:86-167 | after any interleaving, the tables equal those of running the committed units one at a time in commit order, each accepted on its own; the log holds each committed session once and no failed one |
| Guarantees.JobsAsRequested | internal/usecase/transfer.go:48-104 | every session works on the job that arrived, in the order of arrival |
| Guarantees.CommittedAsRequested | internal/usecase/transfer.go:86-167 | the unit a session commits is the one its client asked for |
| Guarantees.LedgerInvariant | internal/repository/postgres/account.go:79-123 | in every committed state of every run of openings and transfers each account is sound and each currency is conserved |
| Guarantees.BalanceBound | internal/usecase/transfer.go:140-162 | in every such state each balance lies between zero and its currency's openings |
| Guarantees.BookInvariant | migrations/000001_init_schema.up.sql:15-31 | in every run double entry holds and no key, transaction id or posting id is committed twice |
| Guarantees.RefusalDeserved | internal/usecase/transfer.go:152-162 | a transfer is refused only when the serial ledger would refuse it at that moment; while the currency fits in int64 an acceptable transfer is never refused, credit-first or not |
| Guarantees.ErrorDeserved | internal/usecase/transfer.go:76-167 | the error of a refused transfer is true of the request and of the tables at that moment |
| Guarantees.OpeningRefused | internal/usecase/account.go:35-115 | a statement of an opening is refused exactly for the unspecified currency, a used key or an amount beyond int64, each with its error |
| Guarantees.ClimbRows | internal/usecase/transfer.go:137-150 | following row waits climbs the UUID order and ends at a session that can step |
| Guarantees.DeadlockFree | internal/usecase/transfer.go:137-162 | while any transfer, opening or correction is unfinished, some session can run its next statement |
| Guarantees.EventWorks | internal/usecase/transfer.go:86-167 | every event except an arrival uses up work |
| Guarantees.RunBounded | internal/usecase/transfer.go:86-167 | a run without arrivals is no longer than the work at its start |
| Guarantees.MaximalRunEnds | internal/usecase/transfer.go:86-167 | a run that can go no further has committed or rolled back everything |
| Guarantees.CorrectionEffect | internal/usecase/posting_worker.go:226-245 | the amount a correction commits falls short of the posting sum by exactly the account's postings between the two recorded lengths |
| Guarantees.CorrectionInRun | internal/usecase/posting_worker.go:226-245 | over every run, the committed amount is the posting total of the state in which the sum was read, the drift is exactly the postings committed between that state and the one of the write, and with none since the read the account has no drift and the right version |
| Guarantees.CorrectionRefused | internal/usecase/posting_worker.go:226-245 | a statement of a correction is refused exactly when the sum does not fit in int64 as it is read, or the sum that was read is negative |
| Guarantees.DriftInRun | internal/usecase/posting_worker.go:226-245 | in any run, that shortfall stays until the next correction of the account commits |
| Guarantees.RunExtends | migrations/000001_init_schema.up.sql:7-31 | in any run committed rows stay committed and currencies do not change |
| Transfers.OrderIrrelevant | internal/usecase/transfer.go:140-162 | debit first and credit first give the same decision and the same tables, and the decision is: both accounts exist, the source can pay, the credit fits |
| Transfers.VerdictIsAcceptance | internal/usecase/transfer.go:76-167 | alone on a healthy ledger that fits in int64, a transfer succeeds exactly when the key is fresh, both accounts have the currency and the source can pay |
| Transfers.VerdictMeaning | internal/usecase/transfer.go:76-167 | the error of a lone transfer is justified by the request and the tables, and it succeeds exactly when no error is |
| Transfers.Repository.CreateTransaction | internal/repository/postgres/transaction.go:14-34 | inserts exactly when key and id are fresh, both accounts exist and the amount is positive; a duplicate is a conflict |
| Transfers.Repository.CreatePostings | internal/repository/postgres/posting.go:14-64 | appends one or two postings with consecutive ids and maps each account to the id of its last one; other lengths do nothing |
| Transfers.Repository.DebitBalance | internal/repository/postgres/account.go:79-100 | succeeds exactly when the row exists and can pay; lowers the amount and raises the version to at least the posting id |
| Transfers.Repository.CreditBalance | internal/repository/postgres/account.go:102-123 | succeeds exactly when the row exists and the sum fits; raises amount and version |
| Transfers.Repository.UpdateBalances | internal/usecase/transfer.go:140-162 | the ordered loop ends in the accounts of the atomic transfer, or in the error of the first update that fails |
| Transfers.Repository.Transaction | internal/usecase/transfer.go:48-184 | replies the verdict, and on success the tables are those of the atomic transfer, otherwise untouched |
| Transfers.Repository.CreateAccount | internal/usecase/account.go:35-119 | opens the account with its opening transaction, posting and credit, or changes nothing; it fails exactly for the unspecified currency or a used key |
| Worker.NoSpuriousCorrection | internal/usecase/posting_worker.go:187-218 | a mismatch on an account that was sound at the snapshot means that one of its postings with an id within the bound became visible between the snapshot and the sum |
| Batches.BatchCount | internal/repository/postgres/posting_worker.go:101-106 | batches that end at min(lo + size, max) exhaust a frozen log in exactly ceil((max - cursor) / size) steps |
| Batches.CoverageExact | internal/usecase/posting_worker.go:145-173 | the account of a posting in a batch's interval was handed to ValidateBalance if and only if that posting, or another one of the account in the interval, was visible at the scan |
| Batches.LatePostingMissed | internal/usecase/posting_worker.go:145-173 | the input on which a batch misses a posting: a smaller id that becomes visible after the scan |
| Batches.PassedOnce | internal/usecase/posting_worker.go:128-173 | every id the cursor has passed lies in exactly one of the contiguous batches |
| Batches.StaleExactly | internal/usecase/posting_worker.go:118-125 | writing the last acknowledged position again changes the stored cursor exactly when some batch was acknowledged and the last one was not |
| Batches.ActiveAccounts | internal/repository/postgres/posting_worker.go:109-140 | the accounts with a posting in (lo, hi], each once, ascending |
| Environment.AbsorbCalm | internal/repository/postgres/account.go:79-123 | commits of other transactions keep sound accounts sound and every drift as it is |
| Environment.AbsorbLocked | internal/repository/postgres/tx_context.go:30-50 | while the worker holds the lock of an account's row, the row stays and no posting of the account becomes visible |
| Environment.InterleavingIsAbsorbed | internal/usecase/transfer.go:86-167 | what the concurrent protocol does to the tables between two of its states is applying the commits in between one by one, and while a session holds a row lock none of them touches that row |
| Worker.NewPostingWorker | internal/usecase/posting_worker.go:48-69 | an empty name is refused; a batch size that is not positive becomes 100 and such a waiting time five seconds |
| Worker.PostingWorker.GetAccountBalanceSnapshot | internal/repository/postgres/posting_worker.go:42-58 | reads amount and version of one committed row |
| Worker.PostingWorker.GetPostingsSum | internal/repository/postgres/posting_worker.go:14-40 | sums the account's postings up to a positive limit, or all of them |
| Worker.PostingWorker.ApplyBalanceCorrection | internal/repository/postgres/posting_worker.go:60-82 | the new row has the amount and keeps the currency; without concurrent commits its version is the largest posting id; a negative amount is refused; nothing is visible before the commit |
| Worker.PostingWorker.CommitCorrection | internal/repository/postgres/tx_context.go:45-49 | the row becomes visible exactly when the commit takes effect, acknowledged or not, and the posting total of the account has not changed since the UPDATE |
| Worker.PostingWorker.CorrectBalance | internal/usecase/posting_worker.go:226-245 | if the commit takes effect, acknowledged or not, the amount misses exactly the postings committed since the sum was read, and is the posting total when there are none; otherwise sound accounts stay sound; no other account's drift changes |
| Worker.PostingWorker.Compare | internal/usecase/posting_worker.go:187-216 | one comparison of a snapshot with a bounded sum, and the version read again on disagreement |
| Worker.PostingWorker.ValidateBalance | internal/usecase/posting_worker.go:178-224 | corrects only after a mismatch at the last step, and then only with the version within the bound or all eight steps used; a sound account only because of a posting within the bound; no other account's drift changes; without concurrent commits it ends with the posting total once the bound covers the last posting |
| Batches.LastIdIsLargest | internal/repository/postgres/posting_worker.go:95-99 | no posting has a larger id, and in a log with positive ids some posting has it |
| Worker.PostingWorker.GetCursorPosition | internal/repository/postgres/posting_worker.go:84-107 | the stored position and a bound one batch on, or one that no posting exceeds; and never beyond the last posting |
| Worker.PostingWorker.GetActiveAccounts | internal/repository/postgres/posting_worker.go:109-140 | the active accounts of the interval at the moment of the scan |
| Worker.PostingWorker.UpdateCursorPosition | internal/repository/postgres/posting_worker.go:142-153 | the position is stored exactly when the write takes effect, which an error does not exclude |
| Worker.PostingWorker.ValidateAll | internal/usecase/posting_worker.go:155-163 | hands every active account to ValidateBalance, stopped only by cancellation |
| Worker.PostingWorker.ProcessBatch | internal/usecase/posting_worker.go:127-173 | the cursor moves exactly when a batch is complete and its write takes effect, strictly forward and not beyond the largest id, after exactly the accounts scanned in it were validated; without concurrent commits and failures a batch with work left always completes, within a bounded number of statements |
| Worker.PostingWorker.WaitBackoff | internal/usecase/posting_worker.go:247-261 | reports whether the worker was cancelled while waiting |
| Worker.PostingWorker.Run | internal/usecase/posting_worker.go:97-176 | under any commits, failures, lost acknowledgements and cancellation the stored batches are contiguous and each was stored after exactly the accounts scanned in it were validated; without concurrent commits and failures every account passed is repaired, whatever its amount and version, in ceil((max - cursor) / size) batches, and unless it is cancelled too soon the worker reaches the end of the log, where no posting is ahead and every account posted to after the first cursor holds its posting total; an account never validated keeps its drift under any commits and failures; the shutdown write on the cancelled context leaves the cursor, and where it would go otherwise is stated exactly |
| Idempotency.ReplayRoundTrip | internal/transport/grpc/interceptors/idempotency.go:84-107 | a stored completion is replayed as the id it was written with, the lock as "in progress" |
| Idempotency.DuplicateMeaning | internal/transport/grpc/interceptors/idempotency.go:84-94 | only the lock is answered "in progress", and only a text that starts as a completion with an id |
| Idempotency.DbKept | internal/transport/grpc/interceptors/idempotency.go:54-80 | the database moving on never invalidates a stored value, a pending update or a reply |
| Idempotency.EventKept | internal/transport/grpc/interceptors/idempotency.go:30-107 | every step of the interceptor, of Redis and of the database keeps: stored values are the lock or the committed id, OK replies carry the committed id |
| Idempotency.AtMostOncePerKey | internal/transport/grpc/interceptors/idempotency.go:30-107 | whatever Redis does, at most one transaction per key commits, and every OK reply for the key, fresh or replayed, carries its id |
| Idempotency.ExclusiveKept | internal/repository/redis/idempotency.go:35-64 | while Redis behaves, a claimed key is locked and has one owner |
| Idempotency.MutualExclusion | internal/repository/redis/idempotency.go:35-64 | in every run without expiry or Redis errors at most one handler per key is in flight, and the stored value is absent, the lock, or the completion with the committed id |
| Idempotency.RequestsAsCalled | internal/transport/grpc/interceptors/idempotency.go:25-33 | every request is served with the row it was called with |
| Idempotency.FailOpen | internal/transport/grpc/interceptors/idempotency.go:30-39 | a request without a key, or for which Redis fails, runs its handler all the same and owns nothing |
| Idempotency.ReturnOutcome | internal/transport/grpc/interceptors/idempotency.go:54-80 | a success is answered with the transaction's id and its owner goes on to write it back; the owner of a failure goes on to delete the lock and answers the error |
| Idempotency.WriteBack | internal/transport/grpc/interceptors/idempotency.go:67-78 | in every run without Redis errors a success stays to be written back until it is, and is stored from then on |
| Idempotency.RepeatWhileOwned | internal/transport/grpc/interceptors/idempotency.go:35-43 | a repeat that arrives while the key's owner is at work is told so, and changes neither the database nor Redis |
| Idempotency.CompletedStays | internal/repository/redis/idempotency.go:35-64 | in every run without expiry or Redis errors a stored completion is never overwritten or deleted |
| Idempotency.RepeatAfterSuccess | internal/transport/grpc/interceptors/idempotency.go:54-94 | after a success, in every later state of every such run, a repeat is told to wait until the success has been written back and gets the same transaction id from then on; it starts nothing |
| Idempotency.FailureReleases | internal/transport/grpc/interceptors/idempotency.go:54-58 | after a failure its owner can always delete the lock, and until it does a repeat is told to wait |
| Idempotency.RepeatAfterFailure | internal/transport/grpc/interceptors/idempotency.go:54-58 | after a failure and its delete, the first repeat, however late in such a run, claims the key and runs the handler again |
| Caches.AtoiRoundTrip | internal/repository/redis/Currency.go:15-41 | the cached decimal text reads back as the number written |
| Caches.AtoiMeaning | internal/repository/redis/Currency.go:35-40 | a text is a number only as digits after at most one sign, within int64 |
| Caches.SerialKnown | internal/usecase/account.go:35-38 | no committed account has the unspecified currency, which stands for a miss |
| Caches.OpeningHolds | internal/usecase/account.go:117-121 | once an opening has committed, the currency its request goes on to cache is the stored one |
| Caches.OpeningCached | internal/usecase/account.go:121 | the fill after an opening caches its currency |
| Caches.EventKept | internal/usecase/transfer.go:202-261 | every step of the concurrent ledger, every cache fill however late, every expiry and every broken text keeps the cache true |
| Caches.TruthfulInEveryRun | internal/usecase/transfer.go:202-261 | in every reachable state each usable cache entry is the stored currency of an existing account |
| Caches.VerdictMeaning | internal/usecase/transfer.go:242-260 | the verdict is not-found exactly when an account is missing, a mismatch exactly when one of the two currencies differs, and otherwise what lets a well-formed transfer go on |
| Caches.VerdictStays | internal/usecase/transfer.go:256-260 | a match or a mismatch of currencies never changes |
| Caches.CurrencyValidator.SetAccountCurrency | internal/repository/redis/Currency.go:15-23 | stores a text that reads back as the currency, or nothing when Redis fails |
| Caches.CurrencyValidator.GetAccountCurrency | internal/repository/redis/Currency.go:25-41 | a miss, a failure and a broken text all read as unspecified; anything else is the stored currency |
| Caches.CurrencyValidator.GetCurrencies | internal/repository/postgres/account.go:45-73 | exactly the existing accounts among the ids, with their currencies |
| Caches.CurrencyValidator.LookUp | internal/usecase/transfer.go:205-254 | the currencies of both accounts at one moment of the call, or that one of them did not exist then |
| Caches.CurrencyValidator.ValidateTransferCurrencies | internal/usecase/transfer.go:202-261 | whatever is cached, and whatever commits, expires, fails or is cached between its statements, the verdict is that of the accounts table at one moment of the call, the one of the SELECT if there is one; only a failing database can replace it; undisturbed it leaves both currencies cached |
| Caches.TransactionReads.PublishTransaction | internal/infra/kafka/producer.go:27-45 | an event carries a committed row, or is lost |
| Caches.ProjectedMeaning | internal/usecase/transaction_cache.go:31-53 | a message is cached under its own id, without one under its key, and not at all when neither is an id or the payload is broken |
| Caches.TransactionReads.HandleKafkaMessage | internal/usecase/transaction_cache.go:31-53 | any delivery of a published event, repeated or late, caches the committed row under its id; an empty id is taken from the message key |
| Caches.TransactionReads.GetTransaction | internal/usecase/stats.go:31-40 | a successful answer is the committed row with that id; a committed row is found exactly when Redis answers and either has it or the database answers |
| Pool.DistinctIndexesBijective | loadgen/service/builder.go:150-157 | every ordered pair of distinct indexes comes from exactly one pair of draws |
| Pool.AccountPool.Add | loadgen/service/pool.go:47-52 | the id now has this balance and every other id keeps its own, and the index points at slots that hold their id |
| Pool.AccountPool.BalanceOf | loadgen/service/pool.go:155-163 | the balance of a known id |
| Pool.AccountPool.ReserveValid | loadgen/service/pool.go:123-140 | succeeds exactly when both ids are known and the source can pay, and moves the amount, also between an account and itself |
| Pool.AccountPool.RollbackValid | loadgen/service/pool.go:143-153 | puts the amount back, on whichever side is known |
| Pool.PutBackReverses | loadgen/service/pool.go:143-153 | a rollback after a reservation restores every balance, and is a move in the other direction when others came in between |
| Pool.MovedTotal | loadgen/service/pool.go:123-153 | a reservation or its undoing never changes the total |
| Load.Drawn | loadgen/service/builder.go:41-44 | the drawn amount is positive, and all of the balance only when that is one |
| Load.DrawnOnto | loadgen/service/builder.go:41-44 | every amount below the balance comes from exactly one draw, and three times in four it is one unit |
| Load.BuildValid | loadgen/service/builder.go:35-58 | a job exists exactly when its money could still be reserved, and the reservation is all that changes |
| Load.DropReserved | loadgen/service/core.go:177-186 | gives a reservation back, and leaves the pool alone for a job without one |
| Load.HandleJob | loadgen/service/core.go:217-227 | the reservation stays on success and is undone on failure |
| Load.FinishOutcome | loadgen/service/core.go:217-227 | in the machine too, a success keeps the reservation and a failure gives it back, and the job is recorded so |
| Load.DropOutcome | loadgen/service/scheduler.go:75-79 | a stream that drops its job gives the reservation back and returns |
| Load.JobsAsBuilt | loadgen/service/builder.go:50-57 | the jobs are exactly those that were built, in order, with nothing changed but their outcome |
| Load.OutcomeAsEnded | loadgen/service/core.go:209-237 | every recorded outcome is how the run ended the job: successful if and only if a worker finished it without an error |
| Load.FirstInFirstOut | loadgen/service/core.go:147-149 | workers receive jobs in the order in which streams sent them, and the rest is queued |
| Load.NobodyLeavesEarly | loadgen/service/scheduler.go:47-80 | before cancellation no stream and no worker returns and no job is dropped |
| Load.PlacesAfter | loadgen/service/scheduler.go:59-80 | a build puts a job in one place, dropping or finishing takes it from one, and every other step keeps the number of places |
| Load.MirrorsRelease | loadgen/service/pool.go:143-153 | giving up any one open job, in any order, leaves the pool at the initial balances plus the jobs not given up |
| Load.EventKept | loadgen/service/core.go:121-237 | every step of streams, queue and workers keeps: each unfinished job is in exactly one hand or in the queue, a finished one in none, and the pool mirrors the jobs |
| Load.RunKept | loadgen/service/core.go:202-206 | every run keeps that, the queue keeps to its capacity, and no stream sends on the closed queue |
| Load.FinishedOnce | loadgen/service/core.go:177-227 | in every run each job is dropped or handled at most once, and exactly once when it is finished |
| Load.FinishedStays | loadgen/service/core.go:177-227 | a finished job never changes again |
| Load.AtEnd | loadgen/service/core.go:202-206 | when the workers have returned, the streams have too, the queue is closed and empty, every job was finished exactly once, each balance is the initial one plus what the transfers that succeeded in the run moved, and the total is the initial total |
| Load.NeverStuck | loadgen/service/core.go:187-206 | after cancellation somebody can always go on until the phase has ended |
| Load.RunBounded | loadgen/service/core.go:187-206 | a run is bounded by the work at its start and five steps for each job built |

## Left out

- Drivers and wiring (pgx, go-redis, kafka-go, gRPC, nginx, Kubernetes, configuration, logging, metrics): no algorithm of their own.
- KEY SHARE locks of foreign keys: they do not conflict with the row locks used here.
- Panic recovery in the interceptor: runs with panics are not modelled.
- Timestamps, and JSON encoding of cached transactions: taken as the identity on the other fields.
- Several posting workers at once: the repository demands exactly one.
- Progress of a retry after the key's lifetime: only safety and the identity of OK replies are stated.
- Completeness of event delivery: loss is an allowed step.
- Worker.PostingWorker.ApplyBalanceCorrection: the `latest_posting_id` of a correction that waited for the row lock is not stated, only its value without concurrent commits, because the source fixes no value there.
- Parallel cache reads in `validateTransferCurrencies` are modelled one after the other; they do not write.
- The 32-character, braced and URN forms accepted by the UUID library's parser: the service only writes the 36-character form.
- int64 wrap-around of the load generator's local balances, its Poisson timing, its pick loops and its list of recent transaction ids; that streams stop building soon after cancellation is up to their timers.
- Account reads, posting listings and the mapping of errors to gRPC codes: they return single rows or constants.
