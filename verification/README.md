# PayNext: verified models of money, idempotency and sessions

This project models the parts of the PayNext server on which its promises about
money and sessions rest, and proves those promises. It covers:

- **The money engine** (`walletService.js`, `moneyService.js`,
  `paymentRequestModel.js`, `requestController.js`). `Bank` says what each operation
  does to the tables when it runs alone; `BankInvariants` and `LedgerHistory` say what
  that keeps and what the kept invariant means. `Effects` is a second account of the same operations,
  column by column and apart from the first: the two are proved equal, and who may do
  what is read off it. `Programs` is each operation as the
  sequence of statements that its client code issues, the next one decided by the
  answers so far; `Locking` and `Interleaving` run any number of programs against one
  database statement by statement, with row locks, private uncommitted writes, failures
  at any point and retries; `Serialisability`, `Journal`, `Histories` and `Deadlock` prove what
  holds of every run, `SingleCalls` that a call that meets no other is the operation. `BankService` is the code as it is written: a database object whose
  methods issue statements inside `withTransaction`, under a schedule of statement
  failures; `Sessions` ties it to the programs, and `Handlers` to the idempotency
  protocol.
- **The idempotency protocol** (`idempotencyStore.js`, `middleware/idempotency.js`).
  `Idempotency` is the life of one key under racing duplicates, crashes, failed
  persists, the purge and two clocks; `IdempotencyStore` is the code as it is written;
  `StableStringify` is the canonical serialisation behind the request hash.
- **Refresh-token rotation** (`refreshTokenService.js`). `RefreshTokens` is the machine
  over all sessions, one transaction a step except for revoking UPDATEs that others
  overtake; `RefreshRaces` says what such an UPDATE achieves; `RefreshTokenStore` is the
  code as it is written.
- **Amounts** (`normalizeAmount`, `toCents`, `isValidAmount`) in `Amounts`, on strings;
  `Patterns` says what a regular expression accepts.
- **Paging** over the ledger (`transactionModel.js`) in `Paging`.

`dafny verify dfyconfig.toml` checks the whole project.

## Assumptions

- An attempt of `withTransaction` that fails, a failed COMMIT included, committed nothing.
- Transactions run at READ COMMITTED, the isolation level `withTransaction` asks for by
  default. A row lock is held to the end of its transaction. A guarded UPDATE outside a
  transaction waits for its row, rechecks its guard on the current version and commits.
- `clock_timestamp()` is strictly increasing. NUMERIC(15, 2) is exact: amounts are
  integer cents, and a balance beyond the column is an error.
- Generated ids and tokens are fresh and SHA-256 is injective.
- Each autocommitted statement of the idempotency store is atomic at its own `NOW()`;
  the JavaScript clock that judges expiry may read anything.
- At-most-once needs one thing of handlers: one that answers 500 or above does so within
  its own claim's TTL, or the `remove` that follows deletes no row but its own. Replay
  fidelity needs the like of the other answers and `complete`. The second form is weaker
  and is one the code could check, by the row's `created_at`. A movement may be committed
  however late. Neither can be dropped (`LateReleaseBreaksAtMostOnce`,
  `LateStoreBreaksReplay`): `complete` and `remove` do not look at who owns the row.
- The JavaScript clock that stamps `expires_at` does not run backwards, and the lifetime
  of refresh tokens is constant.

## What is false of the code

- Presenting a rotated refresh token does not always end the session, and neither does
  logout: the revoking UPDATE takes its snapshot when it starts, so it does not see the
  successor that a rotation commits while it waits for the old row. Each ends the session,
  for good, if and only if no rotation of that session commits between the start and the
  end of its UPDATE, unless something else has ended it (`ReuseEndsTheSession`,
  `LogoutEndsTheSession`, both from `FamilyRevokedExactly`). `RacingReplayExists` and
  `LogoutMissesRotation` are concrete sessions that survive. The revocation of an inactive
  account's session after a refresh (server/src/controllers/authController.js:165-170) is
  the same UPDATE. Presentations of one and the same token are serialised by its row lock,
  and `SecondPresentationRevokesSuccessor` covers them.
- A role change is safe, but only because `lockById` (server/src/models/userModel.js:33-36)
  holds the user's row `FOR UPDATE` while its UPDATE runs, and the foreign key of every
  token INSERT needs a key lock on that row (`RoleChangeEndsEverySession`).
- The purge of refresh tokens can delete one that `rotate` would accept. It cannot if and
  only if the database clock is never more than a day and one tick ahead of the JavaScript
  clock (`PurgeIsSafeExactly`); `SkewedPurgeSignsOut` is a run in which it does.

## Where the documentation and the code differ

The model follows the code.

- README.md:113 and SECURITY.md:58 say the `Idempotency-Key` header is required; the
  routes mount `idempotency`, not `idempotency.required` (for example
  server/src/routes/walletRoutes.js:27), so a request without the header runs unprotected.
- SECURITY.md speaks of other users' resources being reported as missing;
  `assertUsableWallet` answers 403 for a wallet of another user
  (server/src/services/moneyService.js:97).
- Logout revokes the whole family, not only the presented token
  (server/src/services/refreshTokenService.js:91-101).

## Model

| member | source | states |
|---|---|---|
| BankInvariants.PerformKeeps | server/src/services/walletService.js:30-268 | every operation keeps the invariant: the ledger is the exact history of each balance, internal movements cancel per currency, a request is settled by one pair of rows or none, every number fits its column |
| BankInvariants.PostKeepsLedger | server/src/services/moneyService.js:102-138 | a balance update with its ledger row keeps the ledger an exact, increasingly stamped history whose sum is the balance of every wallet, the others included |
| BankInvariants.ExchangeKeepsLedger | server/src/services/walletService.js:79-110 | two legs in one currency, stamped after the rows of their wallets, keep the ledger exact and the internal flow of every currency at zero |
| BankInvariants.SettleKeeps | server/src/services/walletService.js:178-205 | approval, which compares only the payer's currency with the request's, still conserves money, because a request has its requester wallet's currency |
| BankInvariants.OpenRequestKeeps | server/src/controllers/requestController.js:12-25 | a request created from an unlocked, possibly outdated wallet read has the requester wallet's currency and an acceptable amount, and no ledger row refers to it |
| BankInvariants.AmendKeeps | server/src/models/paymentRequestModel.js:49-80 | editing, declining or cancelling under the pending guard leaves every settlement row true of its request |
| BankInvariants.OpenKeeps | server/src/models/walletModel.js:19-39 | a new wallet starts at the balance its empty history sums to, under a number nobody has |
| LedgerHistory.StatementIsExact | server/src/services/moneyService.js:125-138 | however a wallet's rows are sorted by `created_at`, each `balance_after` is the previous one plus or minus the amount, from zero to the wallet's balance |
| LedgerHistory.SortIsUnique | server/src/models/transactionModel.js:8 | rows with distinct stamps have one sorted order, so the statement above does not depend on the sort |
| LedgerHistory.RestoreCheckPasses | ops/backup/verify-restore.sh:54-60 | the restore check's query counts no mismatch on tables that satisfy the invariant |
| LedgerHistory.MoneyIsConserved | server/src/services/walletService.js:82-86 | in each currency the balances sum to top-ups and credit adjustments minus withdrawals, merchant payments and debit adjustments, kind by kind, and what transfers and approvals took out of wallets is what they put in |
| Effects.TopUpEffect | server/src/services/walletService.js:30-67 | a top-up is refused for a missing, foreign or inactive wallet, in that order, and for an overflow; otherwise that wallet gains exactly the amount and one ledger, gateway and audit row each say so, nothing else changing |
| Effects.WithdrawEffect | server/src/services/walletService.js:30-67 | the same for a withdrawal, which is refused only beyond the balance |
| Effects.TransferEffect | server/src/services/walletService.js:72-121 | which of the errors of a transfer is given when, and that otherwise exactly the amount leaves one wallet and reaches the other, with every row that says so |
| Effects.PaymentEffect | server/src/services/walletService.js:133-167 | a merchant that is missing, deleted or suspended is not paid; otherwise exactly the amount leaves the payer's own active wallet |
| Effects.ApprovalEffect | server/src/services/walletService.js:172-215 | only the payer, for a pending request, from an own active wallet to an active one in the request's currency; otherwise the stored amount moves and the request is paid |
| Effects.AdjustEffect | server/src/services/walletService.js:220-246 | an administrator's adjustment is refused only for a missing or closed wallet, an overflow or a missing balance |
| Effects.StatusEffect | server/src/services/walletService.js:251-267 | freezing and unfreezing change one status, and are refused for a missing or closed wallet or one that has the status already |
| Effects.CreateEffect | server/src/controllers/requestController.js:14-25 | creating a request inserts exactly the row asked for, in the currency of the wallet read, or says why not |
| Effects.AmendEffect | server/src/models/paymentRequestModel.js:49-80 | only the requester edits and cancels and only the payer declines, only while pending, and which one column each of them changes |
| Effects.PerformIsAuthorised | server/src/services/moneyService.js:94-100 | the authorisation law: a balance falls only on the caller's own active wallet or by an administrator; it rises only on an active wallet, the caller's own for a top-up, the one with the given number for a transfer; a merchant is paid only while trading; a request is paid or declined only by its payer and edited or cancelled only by its requester |
| Bank.PrimaryIsFirst | server/src/services/walletService.js:126-131 | a user's primary wallet is active if any is, and of those as active as it none is older, or as old with a smaller id |
| Programs.RunIsPerform | server/src/services/walletService.js:30-268 | an operation's statements, answered in any way the tables allow, reach COMMIT exactly with the effect of the operation done in one step, and what they observed is true |
| Programs.TransferRun | server/src/services/walletService.js:72-124 | the same for a transfer: number lookup, two locks in id order, debit, credit, transfer row, two ledger rows, audit row |
| Programs.ApproveRun | server/src/services/walletService.js:172-218 | the same for the approval of a request |
| Programs.PayMerchantRun | server/src/services/walletService.js:126-170 | the same for a merchant payment, with a named or a resolved wallet |
| Locking.FootprintIsLocked | server/src/services/moneyService.js:75-119 | a statement that updates or copies from a wallet or request row is issued only after its transaction locked that row |
| Locking.LocksInOrder | server/src/services/moneyService.js:80-92 | a transaction asks only for rows after all it holds: requests before wallets, wallets by id |
| Locking.ExplainsFramed | server/src/services/moneyService.js:75-92 | tables that agree on the rows a transaction holds give it the same answers, so commits of others do not invalidate what it saw |
| Locking.ViewWritesOnlyLocked | server/src/services/moneyService.js:102-138 | a transaction changes only rows it holds, and appends ledger rows only for wallets it holds |
| Interleaving.CommitIsPerform | server/src/services/moneyService.js:25-45 | COMMIT does to the committed tables, as they are then, the operation in one step, and keeps their invariant |
| Interleaving.InsertIsPerform | server/src/controllers/requestController.js:18-25 | the autocommitted INSERT of a request is its creation in one step on the tables as they are then |
| Interleaving.OthersKeep | server/src/services/moneyService.js:75-92 | what every other open transaction saw, locked and stamped stays valid when one commits |
| Interleaving.StepKeeps | server/src/services/moneyService.js:25-45 | every statement, commit, failure, retry and new wallet of every interleaving keeps the invariant of tables, locks and open transactions |
| Serialisability.StepRefines | server/src/services/walletService.js:30-268 | a step of the interleaved machine is one atomic operation on the committed tables or does not touch them |
| Serialisability.EveryRunIsSerial | server/src/services/walletService.js:30-268 | after every interleaving the committed tables are those of running the committed operations one after the other in commit order from empty tables |
| Serialisability.EveryStatementIsExact | server/src/services/moneyService.js:125-138 | in every reachable state each sorted statement is a chain from zero to the balance, whatever order transactions began in, and the restore check finds nothing |
| Serialisability.EveryRunConserves | server/src/services/walletService.js:183-187 | in every reachable state each currency adds up to what came in minus what went out, kind by kind, and nothing is lost or made between two wallets |
| Serialisability.EveryNumberFits | server/migrations/001_init.js:32 | in every reachable state balances and `balance_after` fit NUMERIC(15, 2) and approval's second validation refuses no stored request |
| Serialisability.EveryTransactionIsAudited | server/src/models/auditModel.js:38-48 | in every reachable state there is exactly one audit row for each committed transaction |
| Serialisability.RequestsSettleOnce | server/src/models/paymentRequestModel.js:40-80 | over all races, a request that left `pending` never changes again; one outgoing and one incoming row exist if and only if it is paid, with its final amount and wallets |
| Serialisability.PendingIsUnpaid | server/src/services/walletService.js:174-205 | while a request is pending no ledger row refers to it |
| Serialisability.RunMovesForward | server/src/models/paymentRequestModel.js:40-80 | along every run the ledger and the other append-only tables only grow, and a request keeps its wallet, payer and currency |
| Histories.EveryEventIsAuthorised | server/src/services/moneyService.js:94-100 | in every run every committed operation obeyed the authorisation law on the tables it was committed on |
| Histories.EveryRefusalIsCurrent | server/src/services/walletService.js:75-85 | in every run, an error that a transaction throws is the one the operation meets on the committed tables at that moment, whatever was committed since it began, unless a row it asked for and did not find exists by now |
| Histories.EveryRequestIsItsHistory | server/src/models/paymentRequestModel.js:8-80 | in every reachable state a payment request is what its events made of it: wallet, payer and currency of its creation, amount of its creation or last committed edit, status and payer wallet of what settled it |
| Histories.EveryWalletIsItsHistory | server/src/models/walletModel.js:19-59 | in every reachable state a wallet has the owner, number, currency and creation time it was opened with, the status last given to it, and the balance its ledger rows sum to |
| Journal.PerformBooks | server/src/services/walletService.js:38-54 | an operation whose generated id is new adds one gateway, transfer or payment row with exactly its one or two ledger rows, and leaves every other pair alone |
| Journal.EveryRunKeepsBooks | server/src/services/walletService.js:38-154 | in every reachable state each top-up, withdrawal, transfer and payment row of the ledger has exactly one gateway, transfer or payment row behind it, with its wallet, amount and currency, and each of those exactly its one ledger row, a transfer its two |
| Serialisability.EveryCallCommitsAtMostOnce | server/src/services/moneyService.js:25-45 | whatever breaks and whenever, a call makes at most four attempts and commits once if it returned, never otherwise |
| Serialisability.FailuresAreUndone | server/src/services/moneyService.js:33-43 | whatever breaks and whenever, the committed tables stay, exactly the call's locks are released, and it starts again from nothing if and only if the failure is retryable, it runs in a transaction and fewer than three retries were made |
| Deadlock.WaitingGoesUp | server/src/services/moneyService.js:80-92 | the holder of a row, if it waits too, waits for a later row |
| Deadlock.NoCycle | server/src/services/walletService.js:174-179 | in every reachable state the wait-for graph of money transactions is acyclic |
| Deadlock.SomebodyMoves | server/src/services/walletService.js:79-79 | while any call is unfinished some call has a step that is not a failure |
| Deadlock.WorkDecreases | server/src/services/moneyService.js:25-45 | every step of a call, failures and retries included, uses up some of a total measure of remaining work |
| Deadlock.RunsAreBounded | server/src/services/moneyService.js:25-45 | a run without new arrivals is no longer than the work it starts with |
| Deadlock.EveryRunCanFinish | server/src/services/moneyService.js:80-92 | from every reachable state all calls in flight can finish without any failure, within the remaining work |
| Deadlock.EveryCallIsServed | server/src/services/moneyService.js:80-92 | a call with a valid amount can be carried to its end from every reachable state, without any failure, and is then ended by its own commit or by an error its program throws |
| SingleCalls.CallAloneIsPerform | server/src/services/walletService.js:30-268 | the converse of serialisability: a call that meets no other and no failure commits the operation done in one step on the tables it found, with what it observed exact, and fails with nothing changed if and only if the operation is refused |
| SingleCalls.WalletsCanBeOpened | server/src/models/walletModel.js:19-39 | under any free number a wallet can be opened, empty and active, and nothing else changes |
| Sessions.Answered | server/src/services/moneyService.js:25-45 | one more answered statement of the program extends an undisturbed session: what the connection sees is what the answers make of the tables it started from |
| Sessions.CommitIsPerform | server/src/services/moneyService.js:28-32 | a session whose program has come to COMMIT holds the operation done in one step, on tables that satisfy the invariant |
| Sessions.RefusalIsPerform | server/src/services/walletService.js:30-268 | where the program of a session throws, the operation in one step is refused with the same error |
| Sessions.AmendIsProgram | server/src/models/paymentRequestModel.js:49-80 | each guarded UPDATE is its program: lock the row, recheck the guard, write and commit, or throw |
| Sessions.CreateIsProgram | server/src/controllers/requestController.js:12-25 | creating a request is its program: refuse one's own email, read and check the wallet, insert |
| BankService.Database.MoveBalance | server/src/services/moneyService.js:102-119 | `credit` and `debit`: the UPDATE moves one balance, or matches no row when funds or the wallet are missing, or fails when the column overflows |
| BankService.Database.LogTx | server/src/services/moneyService.js:130-138 | appends one row with the wallet's currency, stamped by the clock, which advances; nothing for a wallet that does not exist |
| BankService.Database.LockWallets | server/src/services/moneyService.js:85-92 | returns the rows of those wallets that exist, locked in id order whichever is named first |
| BankService.Database.GatewayBody | server/src/services/walletService.js:30-67 | top-up and withdrawal issue exactly the statements of their program, return where it commits, throw what it throws, and report the new balance |
| BankService.Database.TransferBody | server/src/services/walletService.js:72-124 | the same for a transfer; the balance returned is the sender's |
| BankService.Database.MoveBetween | server/src/services/walletService.js:84-121 | the same for what follows the checks: debit, credit, transfer row, both ledger rows, audit row |
| BankService.Database.ResolvePayerWallet | server/src/services/walletService.js:126-131 | locks the named wallet, or the user's first active one by creation time and id, or the first of all when none is active |
| BankService.Database.PayMerchantBody | server/src/services/walletService.js:133-170 | the same for a merchant payment, with the merchant status that was read |
| BankService.Database.ApproveBody | server/src/services/walletService.js:172-218 | the same for an approval, the second validation of the stored amount included |
| BankService.Database.MarkPaid | server/src/models/paymentRequestModel.js:40-47 | the guarded UPDATE, whose result the caller does not check, settles a pending request and leaves any other alone |
| BankService.Database.AdjustBody | server/src/services/walletService.js:220-249 | the same for an admin adjustment, which works on frozen wallets and not on closed ones |
| BankService.Database.StatusBody | server/src/services/walletService.js:251-268 | the same for freezing and unfreezing |
| BankService.Database.Conclude | server/src/services/moneyService.js:28-32 | a body that ran its program to the end has done the operation in one step, or was refused with the operation's own error |
| BankService.Database.Transact | server/src/services/moneyService.js:28-32 | BEGIN, body, COMMIT: the whole operation becomes visible at once or the committed tables do not change |
| BankService.Database.Attempt | server/src/services/moneyService.js:27-42 | a connection that cannot be had is thrown at once and a failed attempt changes nothing, whether or not its ROLLBACK succeeds |
| BankService.Database.WithTransaction | server/src/services/moneyService.js:25-45 | at most `maxRetries + 1` attempts, all but the last of which failed with a retryable error; a return means exactly one whole effect is committed and reports its balance, a throw that none is, with the last attempt's error; a retryable error is thrown only when all attempts are used up, and an error of the operation is the one it is refused with in one step |
| BankService.Database.MoneyOperation | server/src/services/walletService.js:31-32 | refused for the amount if and only if `isValidAmount` refuses it; otherwise the operation is performed on exactly its cents or refused with its own error, retried three times at most, and without faults one of these two |
| BankService.Database.TopUp | server/src/services/walletService.js:69-69 | with a valid amount and no faults, succeeds if and only if the wallet is the caller's, active and has room, with the balance exactly the cents higher; else with the error of the first check that fails |
| BankService.Database.Withdraw | server/src/services/walletService.js:70-70 | the same, if and only if the wallet has the amount, with the balance exactly the cents lower |
| BankService.Database.Send | server/src/services/walletService.js:72-124 | a transfer asked for with an amount text goes to the wallet that has the number; without faults it succeeds if and only if all its conditions hold, moves exactly the cents and tells the sender's balance; else nothing changes and the error is exact |
| BankService.Database.Pay | server/src/services/walletService.js:133-170 | a merchant payment decides on the merchant's actual status and the named or primary wallet, takes exactly the cents, or changes nothing and gives the exact error |
| BankService.Database.Adjust | server/src/services/walletService.js:220-249 | without faults and with a valid amount, succeeds if and only if the wallet exists, is not closed and has the room or the balance |
| BankService.Database.Approve | server/src/services/walletService.js:172-218 | an approval settles the request whole and tells the payer's balance, lower by the stored amount, or changes nothing and gives the exact error |
| BankService.Database.SetWalletStatus | server/src/services/walletService.js:251-268 | changes one status or nothing, with the exact error |
| BankService.Database.CreateWallet | server/src/models/walletModel.js:19-39 | takes the first drawn number that is free, gives up after five that are taken |
| BankService.Database.CreateRequest | server/src/controllers/requestController.js:12-37 | refused for the amount if and only if it is not valid; otherwise one row is added with the wallet, payer, cents, currency of the wallet, no payer wallet, pending, every other row unchanged; without faults if and only if the wallet is the caller's and active and the payer is somebody else |
| BankService.Database.GuardedUpdate | server/src/models/paymentRequestModel.js:49-80 | the three guarded UPDATEs match exactly the row their guard describes |
| BankService.Database.AmendRequest | server/src/models/paymentRequestModel.js:49-80 | edits, cancellations and declines as `Effects` says, or nothing and "not found" |
| BankService.Database.UpdateRequest | server/src/controllers/requestController.js:59-78 | refused for the amount if and only if it is not valid; otherwise exactly the amount of the requester's own pending request becomes the cents of the text, and "not found" is answered if and only if there is no such request |
| Handlers.Move | server/src/controllers/moneyController.js:4-50 | without faults the answer is the one that the operation's outcome calls for; with them, the key is told of success exactly when the movement is committed, and anything else comes with unchanged tables |
| Handlers.Approve | server/src/controllers/requestController.js:96-108 | the same for the approval of a request |
| Handlers.CreateRequest | server/src/controllers/requestController.js:12-37 | the same for the creation of a request, with the row that is stored field by field |
| Handlers.ServerErrors | server/src/middleware/errorHandler.js:9-34 | which errors are answered 400, 403, 404 and 409, and that 500 is answered exactly to what is not an ApiError |
| Amounts.AcceptsIsMatches | server/src/services/moneyService.js:12 | splitting at the first dot decides the pattern |
| Amounts.MatchesIsPattern | server/src/services/moneyService.js:12 | the grammar used below is the language of the regular expression AMOUNT_PATTERN |
| Amounts.SpaceIsWhiteSpace | server/src/services/moneyService.js:62 | what is trimmed is exactly the WhiteSpace and LineTerminator code points of ECMA-262 |
| Amounts.TrimWraps | server/src/services/moneyService.js:62 | the text is its trimmed form with white space around it, and the trimmed form has none at either end |
| Amounts.TrimIsUnique | server/src/services/moneyService.js:62 | no other text is so |
| Amounts.AcceptedExactly | server/src/services/moneyService.js:58-73 | over all inputs, an amount is accepted if and only if its raw text is white space around a text of the pattern whose cents are positive and within the cap, and the result then is that many cents |
| Amounts.ValidatorsAgree | server/src/middleware/validators.js:29-35 | `isValidAmount` and `normalizeAmount` accept the same inputs |
| Amounts.NonZeroIsPositive | server/src/services/moneyService.js:63 | the `[1-9]` test holds if and only if the cents are positive |
| Amounts.NormalizeRoundTrip | server/src/services/moneyService.js:58-73 | the result has two decimals, the cents of the trimmed input, and is its own normal form |
| Amounts.NormalFormsAgree | server/src/services/moneyService.js:47-73 | two accepted inputs normalise alike if and only if their cents agree |
| Amounts.AcceptedFits | server/src/services/moneyService.js:12 | whatever the cap, an accepted amount fits NUMERIC(15, 2) |
| Amounts.StoredAmountNormalizes | server/src/services/walletService.js:178 | a stored amount, printed with two decimals, re-normalises to itself under the cap |
| Amounts.StoredAmountAccepted | server/src/services/walletService.js:178 | the second validation refuses a stored amount if and only if it is zero or above the cap |
| Idempotency.EveryRunLinearizes | server/src/services/idempotencyStore.js:33-81 | over every run and at any pace, the INSERT / SELECT / UPDATE sequences of racing duplicates act on the key as one atomic TTL register: each request gets at most one answer, that of the register, and a request whose handler runs was answered `new` and works under a claim the register granted |
| Idempotency.ClaimedKeyIsRefused | server/src/services/idempotencyStore.js:45-73 | while a claim is unreleased and within the TTL no request reaches the handler, whatever the JavaScript clock reads and whatever its hash |
| Idempotency.ExactlyOneReclaims | server/src/services/idempotencyStore.js:63-73 | of any set of requests racing to re-claim an expired key at one instant exactly the first to UPDATE wins |
| Idempotency.RaceHasOneWinner | server/src/services/idempotencyStore.js:63-73 | interleaved with anything that does not free the key, an UPDATE wins if and only if nobody has won yet or the last winner's claim has outlived the TTL |
| Idempotency.PurgedRaceHasNoWinner | server/src/services/idempotencyStore.js:63-105 | once the purge has deleted the expired row, no UPDATE wins until an INSERT has claimed the key |
| Idempotency.StepKeeps | server/src/middleware/idempotency.js:30-65 | every step of the claim, execute, complete-or-release cycle keeps the invariant of row, claims and movements |
| Idempotency.AtMostOncePerTtl | server/src/middleware/idempotency.js:30-63 | over every interleaving of duplicates, crashes, failed persists and purges, two executions that moved money were claimed more than one TTL apart, and none was released, if failures are prompt or delete no row but their own |
| Idempotency.GuardedClaimHolds | server/src/middleware/idempotency.js:53-63 | a prompt handler's row is its own: promptness implies the weaker condition on `created_at` |
| Idempotency.ReplayIsFaithful | server/src/services/idempotencyStore.js:76-89 | a replay sends what the handler of the current claim answered, to a request with that claim's hash |
| Idempotency.EveryRetryIsReplayed | server/src/services/idempotencyStore.js:1-8 | over every run, once an answer is stored within its claim's TTL, whatever happens until the TTL is over a request with the same hash is replayed that answer and one with another hash is refused |
| Idempotency.UndisturbedBegin | server/src/services/idempotencyStore.js:44-81 | in any state, `begin` with nothing in between gives the answer and leaves the row that `Begin` below is proved to give |
| Idempotency.MovementsAreCommits | server/src/middleware/idempotency.js:53-65 | the record of movements that at-most-once speaks of holds every commit of the run, in order |
| Idempotency.AnythingCanHappen | server/src/services/idempotencyStore.js:99-105 | requests arrive, processes crash, the purge runs and time passes at any point, and only the purge touches the row |
| Idempotency.LateReleaseBreaksAtMostOnce | server/src/services/idempotencyStore.js:92-97 | a run in which a failure answered after the TTL deletes another request's row, and two duplicates move money at once |
| Idempotency.LateStoreBreaksReplay | server/src/services/idempotencyStore.js:83-89 | a run in which an answer given after the TTL lands in another request's row and is replayed |
| IdempotencyStore.Store.Begin | server/src/services/idempotencyStore.js:44-81 | undisturbed, `begin` gives the answer and the row spelled out for every row, hash and clocks, and touches no other key |
| IdempotencyStore.Store.Complete | server/src/services/idempotencyStore.js:83-89 | stores the answer in whatever row the key has, and touches no other key |
| IdempotencyStore.Store.Remove | server/src/services/idempotencyStore.js:92-97 | frees the key and touches no other |
| IdempotencyStore.Store.PurgeExpired | server/src/services/idempotencyStore.js:99-105 | deletes exactly the rows older than the TTL and counts them |
| IdempotencyStore.Store.Handle | server/src/middleware/idempotency.js:14-65 | the middleware around a handler: what is sent, whether the handler ran and what the key holds afterwards, for every header, row and persist outcome |
| IdempotencyStore.Store.RetryIsReplayed | server/src/middleware/idempotency.js:45-62 | after a stored answer an identical retry is sent that answer without running the handler, and another payload under the key is refused |
| IdempotencyStore.KeyOkIsPattern | server/src/middleware/idempotency.js:3 | the key test is the language of the regular expression KEY_PATTERN |
| StableStringify.StringRoundTrip | server/src/services/idempotencyStore.js:20-23 | a quoted string is read back unit for unit by section 7 of RFC 8259, lone surrogates included |
| StableStringify.ValueIsReadable | server/src/services/idempotencyStore.js:15-24 | a serialised value, up to key order, and the text after it are determined by the whole text |
| StableStringify.SortedIsUnique | server/src/services/idempotencyStore.js:18-19 | sorting by code units gives one order for one set of keys |
| StableStringify.LessIsLexicographic | server/src/services/idempotencyStore.js:19 | the order of keys is lexicographic by code units |
| StableStringify.StringifyIsCanonical | server/src/services/idempotencyStore.js:15-24 | two values serialise alike if and only if they are equal up to object key order at every depth |
| StableStringify.FramingIsCanonical | server/src/services/idempotencyStore.js:26-31 | without newlines in method and URL, two requests are hashed from the same text if and only if method and URL agree and the bodies agree up to key order, an absent or falsy body and `{}` being the same |
| RefreshTokens.StepKeeps | server/src/services/refreshTokenService.js:24-106 | issuing, rotating, revoking, also by an UPDATE that others overtook, purging and waiting keep every family a single chain |
| RefreshTokens.EveryFamilyIsAChain | server/src/services/refreshTokenService.js:24-89 | in every reachable state a family's kept tokens are the end of one acyclic chain through `replaced_by`, of one user, with non-decreasing expiry |
| RefreshTokens.AtMostOneLive | server/src/services/refreshTokenService.js:82-88 | at most one token of a family is unrevoked; each rotated token has its own successor, kept and in the same family |
| RefreshTokens.RotatedAtMostOnce | server/src/services/refreshTokenService.js:60-89 | over every run no token is rotated successfully twice |
| RefreshTokens.SecondPresentationRevokesSuccessor | server/src/services/refreshTokenService.js:64-88 | of two presentations of one live token the first gets a successor and the second revokes it |
| RefreshTokens.PurgeKeepsChain | server/src/services/refreshTokenService.js:103-106 | the purge deletes a prefix of what a chain keeps |
| RefreshTokens.PurgeNeverUnlinks | server/src/services/refreshTokenService.js:103-106 | in every reachable state the purge leaves no kept token pointing at a deleted one |
| RefreshTokens.PurgeIsSafeExactly | server/src/services/refreshTokenService.js:78-106 | no purge of any run deletes a token that `rotate` would accept if and only if the database clock is at most a day and one tick ahead of the JavaScript clock (or tokens live for no time at all) |
| RefreshTokens.PurgedHasExpired | server/src/services/refreshTokenService.js:78-106 | within that lead, what a purge deletes would not have been renewed then or at any later time |
| RefreshTokens.SkewedPurgeSignsOut | server/src/services/refreshTokenService.js:103-106 | a concrete run beyond it in which a live, unexpired token is deleted |
| RefreshTokens.RevocationsAreExact | server/src/services/refreshTokenService.js:35-50 | an undisturbed revocation, in any state, changes exactly the live tokens of its family or user |
| RefreshTokens.PurgeIsExact | server/src/services/refreshTokenService.js:103-106 | the purge, in any state, keeps exactly what has not been expired for more than a day |
| RefreshRaces.SnapshotRevokesExactly | server/src/services/refreshTokenService.js:35-50 | over every run, an UPDATE started in one state and finished in a later one leaves no live token in its scope if and only if no session in scope that is still alive got a token in between |
| RefreshRaces.FamilyRevokedExactly | server/src/services/refreshTokenService.js:35-41 | for one session and any reason: it is over if and only if no rotation of it committed meanwhile or something else ended it, and then it is over in every later state |
| RefreshRaces.ReuseEndsTheSession | server/src/services/refreshTokenService.js:71-75 | presenting a rotated, unpurged token leaves its family without a live token, then and in every later state, under exactly that condition; undisturbed it is one atomic step |
| RefreshRaces.LogoutEndsTheSession | server/src/services/refreshTokenService.js:92-101 | the same for logout, whatever commits between its two statements |
| RefreshRaces.RoleChangeEndsEverySession | server/src/controllers/adminController.js:22-28 | as long as the user's row lock keeps tokens from being issued, a role change leaves the user without a live token |
| RefreshRaces.RevocationMissesRacingSuccessor | server/src/services/refreshTokenService.js:35-41 | one rotation that commits after the snapshot leaves its successor live, whatever the reason of the UPDATE |
| RefreshRaces.LogoutMissesRotation | server/src/services/refreshTokenService.js:92-101 | a concrete session that survives its logout |
| RefreshRaces.RacingReplayExists | server/src/services/refreshTokenService.js:71-75 | a concrete session that survives the replay of a rotated token |
| RefreshTokenStore.Service.Issue | server/src/services/refreshTokenService.js:24-33 | inserts one live token and keeps token hashes unique |
| RefreshTokenStore.Service.RevokeAllForUser | server/src/services/refreshTokenService.js:43-50 | revokes exactly the user's live tokens for the reason given, changes no other, and reports how many |
| RefreshTokenStore.Service.Rotate | server/src/services/refreshTokenService.js:60-89 | the outcome and the new table are those of rotating the presented token; malformed and unknown tokens change nothing |
| RefreshTokenStore.Service.RevokeByToken | server/src/services/refreshTokenService.js:92-101 | an undisturbed logout finds nothing if and only if the token is malformed or unknown; otherwise it revokes exactly the live tokens of that token's family, none of which is live then, and changes no other |
| RefreshTokenStore.Service.PurgeExpired | server/src/services/refreshTokenService.js:103-106 | deletes exactly the tokens expired for more than a day, clears references to them and counts them |
| Paging.PagesShowEverythingOnce | server/src/models/transactionModel.js:3-22 | on a fixed ledger successive pages show every matching row exactly once, by falling `created_at`, strictly so on every reachable ledger, and as many as `countByWallet` says |
| Paging.NoRowIsSkipped | server/src/models/transactionModel.js:3-13 | when movements are appended between fetches, every row present at the first fetch is still shown on some page |
| Paging.FilterCounts | server/src/models/transactionModel.js:15-22 | the number of rows listed in all is the number counted |
| Paging.FilterSelects | server/src/models/transactionModel.js:5-7 | the filter keeps exactly the rows of the wallet, and of the type if one is asked for, as often as they occur |

## Left out

- The merchant's status at commit: `payMerchant` reads it without a lock, so the model claims only that it was active when read.
- The audit rows of creating, editing, declining and cancelling a request: they are separate statements after the change, so nothing ties them to it.
- The shared key locks that foreign keys take on rows already locked by the same transaction, or on users and merchants, which no money operation locks. The INSERT of a payment request takes one on its wallet and may wait for it; it holds nothing while it waits.
- Interference between the statements of `BankService.Database`, `IdempotencyStore.Store` and `RefreshTokenStore.Service`: these are single runs with failures; `Interleaving`, `Idempotency` and `RefreshRaces` cover concurrency. In `RefreshTokens` a rotation, a purge and a login are one step each; of the transactions of that service only the revoking UPDATEs read rows that they have not locked first.
- RevokeByToken: speaks of one undisturbed call; racing ones are in `RefreshRaces.LogoutEndsTheSession`.
- The deadlock that a role change and a rotation of the same user's token can run into: one of them is aborted and retried.
- Begin: speaks of one undisturbed call; racing calls are in `EveryRunLinearizes`.
- The backoff between attempts, and how often a failure that is not retryable occurs.
- The check of `adminAdjust` that its direction is `credit` or `debit`: a direction is a boolean here.
- Response bodies in `Handlers`, where only the status decides what the key is told.
- Notes, descriptions, providers, gateway references, audit metadata and the ids of ledger rows. The tie-break by id in the ledger's sort order is not needed, because stamps of one wallet are distinct.
- "One wallet per currency per user": the controller checks and then inserts, so it does not hold under concurrency.
- The `SAVEPOINT` around a wallet number's attempt inside a larger transaction.
- How JavaScript prints a number: a number in an amount or a body is the text it prints as.
- Sparse arrays, `undefined`, functions and `toJSON` in request bodies, which JSON parsing does not produce.
- Deleting users, wallets or requests: the server never deletes wallets or requests, and the schema's cascades are not modelled.
- The refresh request beyond `rotate`: its revocation of an inactive account's session is a separate step of the machine.
- Express wiring, validation chains other than `isValidAmount`, JWT, bcrypt, rate limits, metrics, logging, cookies, migrations, deployment scripts and all client code.
