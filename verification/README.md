# A verified model of the bank service

A Dafny model of the service's ledger, sessions, sign-up and profile code, and proofs of what that
code guarantees. `dafny verify dfyconfig.toml` checks the whole project.

**Transfers.** `Transfers.dfy` is a step system. Any number of `createTransfer` requests are in
flight, each with its own program counter, private writes and row locks; one statement of the program
is one step, and a run is any list of events (arrivals, account openings, steps, outside failures).
A waiting request's step changes nothing. `TransferTx` may also be called directly, with arguments that
no handler has checked: a run starts (`Start`) from any accounts that the schema admits, with any number
of such callers, or with none (`Initial`). `Ledger.dfy` is the reference: what one transfer does when it runs alone. The proofs relate
the two:

- `TransferInvariant.dfy`: what every step keeps, and what the handler's checks add to it.
- `Serializability.dfy`: every interleaving is the serial run in commit order, answers included.
- `Progress.dfy`: no deadlock, and every run ends.
- `LedgerLaws.dfy`: reconciliation, double entry, conservation per currency, order independence.
- `Guarantees.dfy`: checks made before the transaction still hold inside it; no overflow; the error
  that `TransferTx` drops loses nothing.
- `RollbackIsolation.dfy`: erase the statements of an unsuccessful request, and nobody else can tell.
- `SQLStore.dfy`: the program text itself, statement by statement over a mutable database that other
  sessions use in between, is one of those runs.
- `RowIds.dfy`: no two transfers, and no two entries, ever get the same id.
- `QuietTransfer.dfy`: without interference, which status the handler, or `TransferTx` alone, answers, and
  what it has then done, in plain terms; paying back restores all accounts.

**Sessions and tokens** (`Tokens.dfy`, `AuthServer.dfy`): logins and renewals over time.
**Sign-up** (`Signup.dfy`, `UserStore.dfy`): user creation with a task enqueued before the commit, and
the worker. **Profile** (`Profile.dfy`): partial updates and the login that observes them.
**Listing** (`Paging.dfy`): the account list and its 32-bit paging arithmetic.

In each part a function on values (`Exec`, `ExecRenew`, `ExecUpdate`, ...) is the specification, the
class methods follow the program's own statements and are proved equal to it, and the main results are
about that specification for all runs. What is accepted, and what each refusal means, is stated without
those functions, in the characters and numbers of the API and in what earlier requests did
(`ArrivalIsChecked`, `TransferAlone`, `LoginAnswers`, `RenewAnswers`, `UpdateAnswers`, `CreateUserAlone`).

## What is assumed of the database and the libraries

- PostgreSQL at read committed: plain reads see committed rows; an UPDATE takes the row lock, waits
  while another transaction holds it, keeps it to the end, and works on the newest committed version
  or the transaction's own. Inserts check foreign keys; their key-share locks do not conflict with
  the no-key-update locks of the balance updates.
- A failed statement marks its transaction; committing a marked transaction rolls it back and reports
  an error. `TransferTx` depends on this: db/sqlc/tx_transfer.go:54 returns nil whatever `addMoney`
  returned.
- Sequence values are never handed out twice, and not given back.
- `timestamptz` (db/migration/000002_add_users.up.sql:6, db/migration/000003_add_sessions.up.sql:9) keeps
  whole microseconds; `Timestamps.dfy` says which.
- Signatures, hashes and random ids are ideal: only issued strings verify, a hash matches only its own
  password, drawn ids and strings are fresh.

## Where a plausible property fails

- The session-expiry branch of `reNewAccessToken` looks unreachable, since the token's own expiry is
  checked first. It is not: the clock is read again for the second check, after the session was fetched,
  and the stored expiry is rounded to microseconds. `Tokens.GuardsThatFire` gives the exact condition (and
  the window, under 500 ns, that the rounding alone leaves), `Tokens.SessionExpiryBranchReachable` both
  ways to hit it with the durations of app.env.
- A committed user's verify-email task can be lost. It is enqueued before the commit and due ten seconds
  later; a commit that stalls past that delay and past the retries finds all attempts used up.
  `Signup.TaskLostIff` counts exactly, `Signup.PromptCommitLosesNothing` shows what the delay buys, and
  `Signup.TaskCanBeLost` gives the runs with a stalled commit, one for any waits between the attempts.
- A page number whose offset does not fit in 32 bits can show the wrong page or an error:
  `Paging.PageIsRightInEveryRun` for the lists that can occur, of at most three accounts,
  `Paging.PageIsRightOnList` for each list, `Paging.PageIsRightIff` for all lists.
- The entries of all transfers sum to zero for every transfer that comes through the handler, but not for
  every call of `TransferTx`: the least int64 is its own negation, so it debits both accounts and reports
  success. `LedgerLaws.LedgerReconciles` has the exact condition, `Guarantees.LeastAmountDebitsBoth` a
  run. The binding `gt=0` (api/transfer.go:16) keeps such amounts out.

## Model

| member | source | states |
|---|---|---|
| TransferInvariant.InstallKeepsInv | db/sqlc/store.go:47 | committing one transaction keeps every other open transaction's private rows valid, because it writes only rows it has locked |
| TransferInvariant.UpdateKeepsInv | db/sqlc/account.sql.go:12-34 | an update on the newest committed version, or on the own one when both ends are the same account, keeps private rows equal to committed row plus own deltas, and locks equal to private rows |
| TransferInvariant.ExecKeepsInv | db/sqlc/tx_transfer.go:19-82 | all of that holds after every run, whatever the transactions were called with |
| TransferInvariant.HandlersKeepInv | api/transfer.go:20-53 | when every transfer comes through the handler, what it checked holds as well, in every reachable state |
| TransferInvariant.ExecKeepsSchema | db/migration/000002_add_users.up.sql:11-16 | after every run each account belongs to a user who has no other account in its currency, and currencies stay supported |
| Serializability.CommitIsSerial | db/sqlc/tx_transfer.go:19-82 | a commit does in one go exactly what the reference transfer does to the committed tables, and the collected answer is the reference answer |
| Serializability.Serializable | db/sqlc/tx_transfer.go:19-82 | after any run, direct calls with arbitrary arguments included, the committed tables are the serial run of the commit log, the log names exactly the successful requests, each once, and each got the answer, both account rows included, of the serial run |
| Serializability.HandlersAreFair | api/transfer.go:20-53 | each transfer that came through the handler meets, at its place in the serial run, two accounts of its currency, the first one its caller's, and has a positive amount |
| Serializability.LogOnlyGrows | db/sqlc/store.go:47 | the serial order is the order of commits: what is logged stays where it is |
| Serializability.UnsuccessfulContributesNothing | db/sqlc/store.go:38-47 | a request that was not answered with success has no share in the committed tables |
| RollbackIsolation.OwnMoveIsInvisible | db/sqlc/store.go:33-45 | a statement of an open transaction changes nothing that others can observe except row ids and its locks |
| RollbackIsolation.OthersMoveAlike | db/sqlc/store.go:33-45 | a step that another request can make beside an open transaction, it can make without it, with the same effect |
| RollbackIsolation.ErasedRunIsTheSame | db/sqlc/store.go:38-47 | take all statements of an unsuccessful request out of a run: same committed tables, same progress and same answers for everybody else, up to row ids |
| Progress.WaitsGoUp | db/sqlc/tx_transfer.go:49-53 | whoever holds the row one waits for waits, if at all, for a larger id |
| Progress.WaitForIsAcyclic | db/sqlc/tx_transfer.go:49-53 | the wait-for relation has no cycle of any length in any reachable state |
| Progress.SomeHolderMoves | db/sqlc/tx_transfer.go:49-53 | a path along the holders of the waited-for rows leads from every unfinished request to one that can step |
| Progress.NoDeadlock | db/sqlc/tx_transfer.go:49-53 | a reachable state in which nobody can step is one where every request is answered and no row is locked |
| Progress.OneRequestIsBounded | db/sqlc/store.go:32-48 | in every run each single request makes at most nine moves, and no more than the statements it had left |
| Progress.MovesAreBounded | db/sqlc/store.go:32-48 | all requests together make at most the moves they had left, and nine for each arrival |
| Progress.MaximalRunsFinish | db/sqlc/store.go:32-48 | every maximal run ends with each request answered and no lock held, after at most nine moves for each arrival and seven for each direct call |
| Progress.EveryRunCanFinish | db/sqlc/store.go:32-48 | from every reachable state the pending requests alone can finish |
| LedgerLaws.LedgerReconciles | db/sqlc/tx_transfer.go:33-53 | every committed balance is the opening balance plus the account's committed entries; entries are, as a bag, one debit and one credit for each transfer row; they sum to zero if and only if no row moves the least int64, and always when every transfer comes through the handler |
| LedgerLaws.OwnViewReconciles | db/sqlc/tx_transfer.go:33-53 | the same laws inside each open transaction's own view once its last update is done |
| LedgerLaws.SerialDoubleEntry | db/sqlc/tx_transfer.go:25-47 | for serial runs the bag equality, and the exact sum of all entries |
| LedgerLaws.CurrencyTotals | db/sqlc/tx_transfer.go:19-82 | in any run, direct calls included, the committed balances of a currency add up to the opening ones plus what the committed transfers have shifted into it |
| LedgerLaws.CurrencyConserved | api/transfer.go:27-47 | for each currency the sum of committed balances never changes in any run of openings and of transfers through the handler |
| LedgerLaws.ConservesIff | api/transfer.go:13-40 | one transfer keeps the total of every currency if and only if it moves nothing, or an amount other than the least int64 within one currency: what the handler checks |
| LedgerLaws.CurrencyTotalZero | api/account.go:25-31 | it is zero when every account was opened with balance 0 |
| LedgerLaws.SameTransfersSameBalances | db/sqlc/account.sql.go:12-16 | two runs that commit the same bag of transfers end with the same balances |
| Guarantees.ChecksStillHold | api/transfer.go:20-73 | existence, currencies, owner and positive amount, checked before the transaction, hold at every later point |
| Guarantees.BalanceBound | db/sqlc/tx_transfer.go:35-53 | in any run, direct calls with amounts of either sign included, a balance never strays from its opening by more than the sizes of open and committed transfers touching it |
| Guarantees.NoOverflow | db/sqlc/tx_transfer.go:35-53 | while opening and sizes fit in int64, neither the negation nor any update overflows, whatever TransferTx was called with, the intermediate value of a self-transfer included |
| Guarantees.NoUpdateFindsNoRow | db/migration/000001_init_schema.up.sql:43-50 | in any interleaving and for arbitrary arguments no balance update finds its row missing: the inserts before it have passed the foreign keys |
| Guarantees.CommitTellsTheTruth | db/sqlc/tx_transfer.go:49-57 | whatever TransferTx was called with: at the commit success is reported if and only if all inserts and both updates answered with a row, and then the tables change as in the serial transfer; else an error is reported and no table changes |
| Guarantees.FailureIsReported | db/sqlc/store.go:33-47 | once a statement of a request has failed for an outside reason, the check reads, BEGIN, COMMIT and ROLLBACK included, the request can only end in the status 500 |
| Guarantees.LeastAmountDebitsBoth | db/sqlc/tx_transfer.go:33-53 | a direct call with the least int64, between the accounts of two users, that succeeds, debits both accounts and leaves entries that do not sum to zero |
| RowIds.IdsAreUnique | db/migration/000001_init_schema.up.sql:10-26 | in every reachable state all committed transfers have different ids, and so have all committed entries |
| QuietTransfers.TransferTxAlone | db/sqlc/tx_transfer.go:19-58 | called with arbitrary arguments and with its two rows free, TransferTx succeeds if and only if both accounts exist and both new balances fit; then payer and payee have that much less and more, one transfer row and two entries are added and the answer shows them; else it reports an error and no row changes |
| QuietTransfers.ArrivalIsChecked | api/transfer.go:13-25 | a request with ids and amount from 1 to 2^63-1 and one of the three currencies goes on to the account check, every other one is answered 400 |
| QuietTransfers.TransferAlone | api/transfer.go:20-73 | with its two rows free, the handler answers 200 if and only if the request is within those limits, both accounts exist in its currency, the payer is the caller and both new balances fit; then the money has moved, else no row changes; 400, 401, 404 and 500 each exactly in its case |
| QuietTransfers.PayingBackRestores | api/transfer.go:20-53 | after a successful transfer the payee can return the same amount, always successfully, and all accounts are as before |
| SQLStores.DriveIsRun | db/sqlc/store.go:32-48 | driving one request through its statements, others in between, is one of the runs |
| SQLStores.HandlerContinuesRun | api/transfer.go:20-53 | a handler call continues any earlier history by such a run |
| SQLStores.SQLStore.GetAccount | db/sqlc/account.sql.go:79-90 | committed row, no row, or failure |
| SQLStores.SQLStore.CreateTransfer | db/sqlc/transfer.sql.go:25-36 | inserts under both foreign keys with a fresh id, else marks the transaction failed |
| SQLStores.SQLStore.CreateEntry | db/sqlc/entry.sql.go:23-33 | the same for an entry |
| SQLStores.SQLStore.AddAccountBalance | db/sqlc/account.sql.go:23-34 | under the row lock adds to the newest version, without overflow; a missing row is an error that does not fail the transaction |
| SQLStores.SQLStore.AddMoney | db/sqlc/tx_transfer.go:60-82 | the two updates in order, stopping at the first error, end at the commit in every case |
| SQLStores.SQLStore.TransferClosure | db/sqlc/tx_transfer.go:22-55 | the statements of the closure are those of the step system; it asks for a rollback exactly when an insert failed |
| SQLStores.SQLStore.CommitTx | db/sqlc/store.go:47 | publishes all private writes, or none when a statement failed, and tells which |
| SQLStores.SQLStore.RollbackTx | db/sqlc/store.go:40-45 | discards the private writes and frees the locks |
| SQLStores.SQLStore.TransferTx | db/sqlc/tx_transfer.go:19-58 | the whole transaction is the step system driven to its end; result and error are those of the run |
| SQLStores.SQLStore.CheckFromAccount | api/transfer.go:27-36 | existence, currency, then ownership of the payer's account, each with its own status |
| SQLStores.SQLStore.CheckToAccount | api/transfer.go:37-40 | existence and currency of the payee's account |
| SQLStores.SQLStore.HandleCreateTransfer | api/transfer.go:20-53 | the handler, other sessions running before every statement, is the step system driven to an answer; status and body are those of the request in that run; a request outside the limits is answered 400 and changes nothing |
| SQLStores.SQLStore.HandleCreateAccount | api/account.go:18-45 | opens a row with balance 0 exactly when the currency is USD, EUR or CAD, the owner exists and has no account in it, and the INSERT does not fail otherwise; each refusal with its own status |
| Tokens.ExecKeepsInv | api/user.go:110-134 | in every run tokens descend from logins, sessions match their refresh tokens, and recorded logins have their session |
| Tokens.BoundedLineage | api/token.go:29-64 | a token that verifies descends from a login of the same user no earlier than the refresh plus the access duration ago, plus the time its handlers spent between their readings of the clock, however often renewed |
| Tokens.BoundedPauses | api/token.go:29-64 | when no handler pauses for longer than a bound between its readings, both durations and twice that bound, over any number of renewals |
| Tokens.RenewalIsExact | api/token.go:29-64 | renewal succeeds if and only if the string is a recorded refresh token, its session is not blocked, the expiry is not past at the first reading of the clock, and the stored expiry not at the second |
| Tokens.RenewAnswers | api/token.go:21-75 | in every reachable state each answer of a renewal exactly in its case: malformed, not issued, expired, no recorded session, blocked, expired session, fault, or the access token made at that moment; incorrect user and incorrect token never |
| Tokens.GuardsThatFire | api/token.go:43-62 | the user and token comparisons never fail; the session-expiry comparison fails for a valid token exactly when the stored expiry lies before the second reading of the clock and the expiry not before the first |
| Tokens.SessionExpiryBranchReachable | api/token.go:58-62 | runs with the deployed durations that take that branch: by a pause of any length between the readings without rounding, and by rounding without a pause |
| Tokens.AccessTokenNeverRenews | api/token.go:34-62 | an access token handed out by a login or by a renewal is refused for renewal whatever happens after it was issued: no session for it until it expires, and then expired |
| Tokens.LoginAnswers | api/user.go:73-145 | after any run a login hands out tokens if and only if the name is alphanumeric, the password has six characters or more and is the last one set for the user, and no call fails; each refusal exactly in its case; session id, tokens and expiries of the answer |
| Tokens.LoginCanRenew | api/user.go:116-134 | whatever happens after a login, its refresh token renews if and only if its session is not blocked by then, the expiry is not past when the token is verified, and its stored value not when the session is checked |
| Tokens.LoginTokensVerify | token/jwt_maker.go:26-62 | whatever happens after a login, both tokens it handed out verify to the payloads they were made for, up to and including the instant of expiry, and never afterwards |
| Tokens.RenewedTokenVerifies | token/jwt_maker.go:26-62 | the same for the access token of a renewal, in the name of the user of the refresh token |
| AuthServers.AuthServer.HandleLogin | api/user.go:87-145 | both tokens, each made at its own reading of the clock, and the session are those of the step system, failures of the reads, of signing and of the insert included; malformed, unknown, wrong password and success each exactly in its case |
| AuthServers.AuthServer.HandleRenew | api/token.go:21-75 | the guard chain, with the clock read anew for each of its uses, gives every answer exactly in its case, keeps the invariant and adds nothing but one access token |
| Signup.EveryUserHasItsTask | db/sqlc/tx_create_user.go:17-25 | every committed user that came through the transaction has had exactly one task enqueued by it; names and addresses are unique |
| Signup.FailedRequestLeavesNoUser | db/sqlc/tx_create_user.go:17-25 | a request that ended in an error, a failed enqueue included, has left no user |
| Signup.AlreadyExistsIsTrue | gapi/rpc_create_user.go:54-63 | in any run a request answered AlreadyExists met, when its row was to be inserted, a committed user with its name or its address |
| Signup.InternalErrorIff | gapi/rpc_create_user.go:54-63 | in any run a request ends in Internal exactly when one of its statements failed for an outside reason |
| Signup.DirectCreateAnswers | db/sqlc/user.sql.go:28-45 | the one-statement creation of the HTTP API adds exactly its row when no committed user has the name or the address, and else nothing |
| Signup.TaskWithoutUser | db/sqlc/tx_create_user.go:17-25 | a task exists from the enqueue on; its creator's user exists if and only if the creator committed |
| Signup.CompletedMeansCommitted | worker/task_send_verify_email.go:44-56 | a task completes only when its user is committed |
| Signup.CommittedTaskCompletes | worker/task_send_verify_email.go:44-56 | once the user is committed and the task is due, an undisturbed attempt completes it |
| Signup.TaskLostIff | gapi/rpc_create_user.go:38-49 | the task of a committed user is given up if and only if the attempts before the commit and the failed reads after it add up to eleven |
| Signup.PromptCommitLosesNothing | gapi/rpc_create_user.go:40-42 | when the commit takes effect within ten seconds of the enqueue, no attempt comes before it, and the task is given up if and only if eleven later reads fail |
| Signup.TaskCanBeLost | gapi/rpc_create_user.go:38-49 | for any waits before the attempts, a run in which the commit stalls past them all: the user is created and its task given up |
| UserStores.DriveIsRun | db/sqlc/store.go:32-48 | driving one create request, others in between, is one of the runs |
| UserStores.CreateUserAlone | db/sqlc/tx_create_user.go:14-28 | after any run a sign-up whose keys no open transaction holds is answered OK if and only if no committed user has its name or its address, and has then added exactly its row and one task; else it is answered AlreadyExists and users and tasks are unchanged |
| UserStores.UserStore.InsertUserRow | db/sqlc/user.sql.go:28-45 | gives up while an open transaction holds its name or address, refuses exactly those that a committed row has, else goes on to the callback |
| UserStores.UserStore.EnqueueVerifyEmail | worker/task_send_verify_email.go:17-36 | one task on the shared queue before the commit, or a rollback |
| UserStores.UserStore.CommitTx | db/sqlc/store.go:47 | the user becomes visible, or not at all |
| UserStores.UserStore.CreateUserTx | db/sqlc/tx_create_user.go:14-28 | insert, callback and commit are the step system driven to the answer |
| UserStores.UserStore.ProcessTask | worker/task_send_verify_email.go:38-57 | one attempt on a task that is due: completed exactly when the read succeeds and finds the user, else counted, and retried while fewer than ten attempts had failed before |
| Profile.MergeWritesGivenFields | gapi/rpc_update_user.go:32-57 | for a validated request the merge writes exactly the fields given, the change time with the password |
| Profile.EmptyNameIsNotWritten | gapi/rpc_update_user.go:34-37 | why validation must come first: the unvalidated merge is right on every row if and only if the name given is not empty |
| Profile.LastWriteWins | db/sqlc/user.sql.go:67-102 | after any calls every field of every user is the last value an accepted call gave it, or the original; the change time is that of the last password change, to the microsecond |
| Profile.LoginSeesLastPassword | gapi/rpc_login_user.go:30-33 | the password check passes exactly for the last password set |
| Profile.OnlyTheUserUpdates | gapi/rpc_update_user.go:28-30 | every accepted call was made by the user it changes and passed validation |
| Profile.FieldsAreChecked | val/validator.go:9-55 | the validation finds nothing exactly when every given field is as the API asks, in characters and lengths |
| Profile.EmailsStayDistinct | db/migration/000002_add_users.up.sql:7 | addresses that are distinct stay so over any calls |
| Profile.UpdateAnswers | gapi/rpc_update_user.go:17-72 | after any calls, an update is answered OK if and only if the caller is the user, all given fields are valid, hashing and the database work, the user exists and nobody else has the address given; then exactly the given fields are written; each other code exactly in its case, changing nothing |
| Profile.UserServer.ValidateUpdateUserRequest | gapi/rpc_update_user.go:74-99 | each violation exactly when its field is given and bad, in the order of the checks |
| Profile.UserServer.UpdateUserRow | db/sqlc/user.sql.go:84-102 | no row, a unique violation exactly when another row has the resulting address, or the merged row, its change time as the column stores it |
| Profile.UserServer.UpdateUser | gapi/rpc_update_user.go:17-72 | each code exactly in its case; on success the given fields of the one row, which is the answer |
| Profile.UserServer.CheckLogin | gapi/rpc_login_user.go:17-33 | passes exactly for a valid request of an existing user with a matching hash; each error, a failing read included, exactly in its case |
| Paging.OwnerRowsAreTheAccounts | db/sqlc/account.sql.go:113-119 | the listed rows are the owner's accounts, each once, in id order |
| Paging.PagesPartition | api/account.go:91-96 | pages 1..k together are the first k * size rows, without gap or repeat, while the last product fits in 32 bits |
| Paging.OffsetIsWrapped | api/account.go:94 | the offset is the int32 that differs from the product by a multiple of 2^32 |
| Paging.PageIsRightIff | api/account.go:91-96 | a page is the right one on every list if and only if its product fits in 32 bits |
| Paging.PageIsRightOnList | api/account.go:91-96 | on a given list the page is the right one if and only if the product fits, or the wrapped offset is past the end of the list as well |
| Paging.OwnerHasAtMostThree | db/migration/000002_add_users.up.sql:14-16 | in every run an owner has at most one account in each of the three currencies, and the listed rows are exactly those |
| Paging.PageIsRightInEveryRun | api/account.go:91-96 | a page is the right one for every owner in every reachable state if and only if its product fits in 32 bits or its wrapped offset is at least three |
| Paging.ListAccounts | db/sqlc/account.sql.go:127-154 | the appending loop returns the slice of the owner's rows, or an error for a negative offset or a failing query |
| Paging.HandleListAccount | api/account.go:77-102 | 400 for a page below 1 or a size outside 5 to 10, 500 for a fault or a negative offset, else the rows from the offset on, at most as many as the size; the true page when the product fits |

## Left out

- Signup.EveryUserHasItsTask: an enqueue that reaches the queue but reports an error is not modelled.
- Signup.TaskLostIff: which waits asynq's backoff and queue weighting lead to is not modelled; once due, a task may be attempted at any time.
- SQLStores.SQLStore.CommitTx: a commit that takes effect while its acknowledgement is lost is not modelled; a failed commit has rolled back.
- Transfers at isolation levels other than the default one, and PostgreSQL's own deadlock detector, which by Progress.WaitForIsAcyclic has nothing to detect.
- created_at columns, user agents, client addresses and log lines: carried, never read by a decision.
- UpdateAccount, DeleteAccount and GetAccountForUpdate: no handler calls them, and the ledger laws are about the steps that handlers take.
- Registering users while transfers run: the set of users is fixed in the transfer model, since only account opening reads it.
- HTTP, gRPC and gateway plumbing, header parsing, configuration, generated protocol and mock code.
- bcrypt, HMAC, PASETO and UUID internals, including bcrypt's length limit: a hash that cannot be made is a call without a salt.
- Mail address parsing: a parameter. In updates text is bytes, as Go's `len` counts; in HTTP login requests it is characters, as the binding tag counts.
- Non-negative balances: there is no funds check, so balances may go below zero.
