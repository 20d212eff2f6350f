# transactions-engine ledger, modelled in Dafny

transactions-engine replays a stream of client transaction records (deposit,
withdrawal, dispute, resolve, chargeback) against an in-memory ledger and
reports each client's available, held and total balance. This project models
the ledger core:

- the input record (`Txs`);
- the deposit lifecycle Released → Held → Released or Reversed (`Deposits`);
- withdrawals (`Withdraws`) and the three reference records (`Disputes`, `Resolves`, `Chargebacks`);
- the error kinds (`Errors`), client and transaction ids (`Ids`), and bounded
  decimal amounts with checked addition (`Decimals`);
- the per-client account (`Accounts`);
- the database that routes each record to the right account and keeps the set
  of consumed transaction ids (`Db`);
- the older draft of the engine kept under `attic/` (`Attic`). It is the only
  code with locked accounts.

Each stateful entity has two layers.

- The value layer is a datatype (`AccountState`, `DbState`, `Attic.AccountValue`,
  `Attic.DatabaseValue`) with step functions from the old value to the new value
  and the result.
- The class layer (`Accounts.Account`, `Db.Db`, `Attic.Account`, `Attic.Database`)
  updates its fields in place. Each of its methods is proved to keep the class
  invariant and to agree with its step function.

The properties are proved about the step functions. They cover:

- the exact error conditions and the order in which they are checked;
- all-or-nothing behaviour;
- the account invariant: the held balance equals the sum of the held deposits,
  and the available balance equals the released deposits minus the withdrawals;
- the database invariant: accounts are filed under their own client, and every
  recorded id is consumed;
- id uniqueness and isolation between clients.

Amounts are integers counted in the decimal's smallest unit, with magnitude at
most `MAX = 2^96 - 1`, the largest 96-bit mantissa.

Where the written contracts and the code differ, the model follows the code:

- The documentation of a dispute (src/dispute.rs:28) says an error is thrown when
  the id "has already been used". The code does the opposite and refuses an id
  that was never consumed, with `MissingTx` (src/db.rs:115-117).
- Locked accounts appear only at the edges of the code. The crate exports
  `AccountLocked` and `AccountUnlocked` (src/lib.rs:27), the binary and the
  reference test print `db.accounts_locked()` (src/main.rs:128,
  tests/reference.rs:78), and the expected output has a `locked` column
  (tests/reference.rs:29). None of these is defined in the account or database
  code, and no code in the current engine locks an account or refuses a
  locked one: its account row always reports `locked` as false
  (src/account.rs:131). Only the draft keeps locked accounts
  (attic/main.rs:353) and refuses them with `AccessLocked` (attic/main.rs:385-391),
  but nothing in the draft ever locks an account either.
- `MissingTxForClient`, `MissingTx` and `ExtraneousAmount` are used by the code
  but missing from the error enumeration (src/err.rs:20-38). The model adds them.

## Model

| member | source | states |
|---|---|---|
| Txs.NewDeposit | src/tx.rs:41-43 | a deposit record carries the given id, client and amount, and is well formed (amount present) |
| Txs.NewWithdraw | src/tx.rs:45-47 | a withdrawal record carries the given id, client and amount, and is well formed |
| Txs.NewDispute | src/tx.rs:49-51 | a dispute record carries no amount and is well formed |
| Txs.NewResolve | src/tx.rs:53-55 | a resolve record carries no amount and is well formed |
| Txs.NewChargeback | src/tx.rs:57-59 | a chargeback record carries no amount and is well formed |
| Deposits.New | src/deposit.rs:77-83 | creation fails with NegativeAmount exactly when the amount is negative; otherwise the deposit is released and carries the given id, client and amount |
| Deposits.Hold | src/deposit.rs:85-92 | holding keeps id, client and amount and is the lifecycle step Released → Held |
| Deposits.Release | src/deposit.rs:96-103 | releasing keeps id, client and amount and is the step Held → Released |
| Deposits.Reverse | src/deposit.rs:105-112 | reversing keeps id, client and amount and is the step Held → Reversed |
| Deposits.HoldThenRelease | src/deposit.rs:85-103 | holding and then releasing gives back the same deposit |
| Deposits.TransitionsClosed | src/deposit.rs:76-112 | Reversed has no way out, and a released deposit can only be held |
| Withdraws.New | src/withdraw.rs:43-49 | creation fails with NegativeAmount exactly when the amount is negative; otherwise it carries the given id, client and amount |
| Accounts.NewAccount | src/account.rs:24-43 | a new account has no money and no transactions, and satisfies the account invariant |
| Accounts.DepositStep | src/account.rs:62-79 | a deposit keeps the account's id, held deposits and withdrawals, and a refused one changes nothing; specified in full by DepositCorrect |
| Accounts.WithdrawStep | src/account.rs:81-93 | a withdrawal keeps the id, held balance and deposits, and a refused one changes nothing; specified in full by WithdrawCorrect |
| Accounts.DisputeStep | src/account.rs:95-118 | a dispute keeps the id, the withdrawals and the total, and a refused one changes nothing; specified in full by DisputeCorrect |
| Accounts.ResolveStep | src/resolve.rs:20-39 | a resolve keeps the id, the withdrawals and the total, and a refused one changes nothing; specified in full by ResolveCorrect |
| Accounts.ChargebackStep | src/chargeback.rs:20-35 | a chargeback keeps the id, the available balance, the released deposits and the withdrawals, and a refused one changes nothing; specified in full by ChargebackCorrect |
| Accounts.DepositKeepsInvariant | src/account.rs:62-79 | a deposit with a fresh id whose new total is representable keeps the account invariant |
| Accounts.WithdrawKeepsInvariant | src/account.rs:81-93 | a withdrawal with a fresh id of at most the available balance keeps the account invariant |
| Accounts.DisputeKeepsInvariant | src/account.rs:95-118 | moving a released deposit of at most the available balance into held keeps the account invariant |
| Accounts.DisputeSucceeds | src/account.rs:95-118 | a dispute that passes both checks produces exactly the account with the deposit moved from available to held |
| Accounts.ResolveSucceeds | src/resolve.rs:20-39 | a resolve of a held deposit cannot underflow held or overflow available, and produces the account with the deposit released again |
| Accounts.HeldAmountAtMostHeld | src/resolve.rs:39 | a held deposit's amount never exceeds the held balance, the note behind resolve and also behind chargeback (src/chargeback.rs:35) |
| Accounts.ResolveKeepsInvariant | src/resolve.rs:20-39 | releasing a held deposit keeps the account invariant |
| Accounts.ChargebackKeepsInvariant | src/chargeback.rs:20-35 | dropping a held deposit and its amount from held keeps the account invariant |
| Accounts.DepositCorrect | src/account.rs:62-79 | a deposit fails, with Overflow and no change, exactly when the new total is not representable; otherwise it credits available, files the deposit and keeps held and the other indices |
| Accounts.WithdrawCorrect | src/account.rs:81-93 | a withdrawal fails, with Insufficient and no change, exactly when it exceeds available; otherwise it debits available and files the withdrawal |
| Accounts.DisputeCorrect | src/account.rs:95-118 | MissingTxForClient exactly when the id is not a released deposit, Insufficient exactly when its amount exceeds available, no change on failure; success moves the amount from available to held and the deposit from the released to the held index, total unchanged, nothing else in the account changed |
| Accounts.ResolveCorrect | src/resolve.rs:20-39 | fails with MissingTxForClient exactly when the id is not held; success moves the amount back from held to available and the deposit from the held to the released index, nothing else in the account changed |
| Accounts.ChargebackCorrect | src/chargeback.rs:20-35 | fails with MissingTxForClient exactly when the id is not held; success removes exactly that held deposit and its amount from held, leaving available, the released deposits and the withdrawals as they were, so the total drops by the amount |
| Accounts.DisputeThenResolve | src/resolve.rs:20-39 | a successful dispute followed by a resolve of the same id restores the account exactly |
| Accounts.DepositsThenWithdraw | src/account.rs:140-162 | two deposits of x and a withdrawal of y ≤ 2x all succeed, leaving 2x − y available, nothing held, total 2x − y |
| Accounts.Account.constructor | src/account.rs:24-43 | a new account object holds the value of a new account |
| Accounts.Account.Total | src/account.rs:58-60 | the total is available plus held, never negative |
| Accounts.Account.Deposit | src/account.rs:62-79 | updates the fields as DepositStep does, and keeps the invariant |
| Accounts.Account.Withdraw | src/account.rs:81-93 | updates the fields as WithdrawStep does, and keeps the invariant |
| Accounts.Account.Dispute | src/account.rs:95-118 | updates the fields as DisputeStep does (the deposit is taken out and put back on Insufficient), and keeps the invariant |
| Accounts.Account.Resolve | src/resolve.rs:20-39 | updates the fields as ResolveStep does, and keeps the invariant |
| Accounts.Account.Chargeback | src/chargeback.rs:20-35 | updates the fields as ChargebackStep does, and keeps the invariant |
| Db.EnsureAmount | src/db.rs:43-48 | succeeds exactly when the record has an amount, returning it; otherwise MissingAmount |
| Db.EnsureNoAmount | src/db.rs:50-55 | succeeds exactly when the record has no amount; otherwise ExtraneousAmount |
| Db.ProcessAmountChecks | src/db.rs:42-74 | MissingAmount exactly for a deposit or withdrawal without amount, ExtraneousAmount exactly for a reference record with one; neither changes anything |
| Db.WellFormedPassesAmountChecks | src/db.rs:42-74 | records built by the Tx constructors never fail the amount checks |
| Db.MoneyTxCheckOrder | src/db.rs:76-110 | NegativeAmount before Duplicate before AccessUnavailable, each without change |
| Db.ProcessDispatch | src/db.rs:60-73 | a deposit or withdrawal record with an amount has exactly the effect of DepositTx or WithdrawTx; a dispute, resolve or chargeback record of a consumed id for a client with an account has exactly the effect of the account's DisputeStep, ResolveStep or ChargebackStep on that account alone |
| Db.ReferenceTxChecks | src/db.rs:112-124 | MissingTx before AccessUnavailable, each without change; a reference record never consumes an id |
| Db.DepositTxCorrect | src/db.rs:76-94 | the exact conditions for NegativeAmount, Duplicate and Overflow; no change on failure, so no account is created; success consumes the id and files under the client exactly the account that DepositStep produces from its existing or new account, credited by the amount; no other account changes |
| Db.WithdrawTxCorrect | src/db.rs:96-110 | the exact conditions for NegativeAmount, Duplicate, AccessUnavailable and Insufficient; no change on failure; success consumes the id and files under the client exactly the account that WithdrawStep produces, debited by the amount; no other account changes |
| Db.DisputeTxCorrect | src/db.rs:112-124 | MissingTx exactly for an unconsumed id, AccessUnavailable exactly for a client without account, otherwise the account's dispute on that account alone; ids untouched |
| Db.ResolveTxCorrect | src/resolve.rs:20-39 | as for a dispute, delegating to the account's resolve |
| Db.ChargebackTxCorrect | src/chargeback.rs:20-35 | as for a dispute, delegating to the account's chargeback |
| Db.ConsistentUpdate | src/db.rs:24-31 | filing a valid account under its own client, with a larger id set, keeps the database consistent |
| Db.DepositTxKeepsConsistent | src/db.rs:76-94 | a deposit keeps the database consistent |
| Db.WithdrawTxKeepsConsistent | src/db.rs:96-110 | a withdrawal keeps the database consistent |
| Db.DisputeTxKeepsConsistent | src/db.rs:112-124 | a dispute keeps the database consistent |
| Db.ResolveTxKeepsConsistent | src/resolve.rs:20-39 | a resolve keeps the database consistent |
| Db.ChargebackTxKeepsConsistent | src/chargeback.rs:20-35 | a chargeback keeps the database consistent |
| Db.ProcessKeepsConsistent | src/db.rs:42-74 | processing any record keeps the database consistent |
| Db.ProcessAllOrNothing | src/db.rs:42-124 | a failed record changes nothing; an accepted deposit or withdrawal consumes exactly its fresh id; nothing else consumes ids |
| Db.ProcessIsolation | src/db.rs:83-91 | a record never creates, removes or changes another client's account |
| Db.AccountsCreatedOnlyByDeposit | src/db.rs:86-91 | accounts are never removed, and only an accepted deposit adds one, for its own client |
| Db.ProcessKeepsTxIds | src/db.rs:85-105 | consumed ids stay consumed |
| Db.RunKeepsTxIds | src/db.rs:42-124 | over any sequence of records, consumed ids stay consumed |
| Db.RunKeepsConsistent | src/db.rs:42-124 | over any sequence of records, the database stays consistent |
| Db.DepositTx | src/db.rs:76-94 | every account stays filed under its own client; specified in full by DepositTxCorrect |
| Db.WithdrawTx | src/db.rs:96-110 | every account stays filed under its own client; specified in full by WithdrawTxCorrect |
| Db.DisputeTx | src/db.rs:112-124 | every account stays filed under its own client; specified in full by DisputeTxCorrect |
| Db.ResolveTx | src/resolve.rs:20-39 | every account stays filed under its own client; specified in full by ResolveTxCorrect |
| Db.ChargebackTx | src/chargeback.rs:20-35 | every account stays filed under its own client; specified in full by ChargebackTxCorrect |
| Db.ProcessTx | src/db.rs:42-74 | every account stays filed under its own client; specified by ProcessDispatch, ProcessAmountChecks, ProcessAllOrNothing, ProcessIsolation and ProcessKeepsConsistent |
| Db.Run | src/main.rs:98-120 | applying the records one after another keeps every account filed under its own client; specified by RunKeepsConsistent and RunKeepsTxIds |
| Db.IdNeverReused | src/db.rs:79-81 | once a deposit or withdrawal is accepted, any later deposit or withdrawal with that id is a Duplicate, whatever came between |
| Db.DuplicateTxId | src/db.rs:142-150 | after an accepted deposit, a withdrawal reusing its id is refused as Duplicate, for any clients and amounts |
| Db.Db.constructor | src/db.rs:24-31 | a new database is empty |
| Db.Db.Process | src/db.rs:42-74 | updates the fields as ProcessTx does, and keeps consistency |
| Db.Db.Deposit | src/db.rs:76-94 | updates the fields as DepositTx does, and keeps consistency |
| Db.Db.Withdraw | src/db.rs:96-110 | updates the fields as WithdrawTx does, and keeps consistency |
| Db.Db.Dispute | src/db.rs:112-124 | updates the fields as DisputeTx does, and keeps consistency |
| Db.Db.Resolve | src/resolve.rs:20-39 | updates the fields as ResolveTx does, and keeps consistency |
| Db.Db.Chargeback | src/chargeback.rs:20-35 | updates the fields as ChargebackTx does, and keeps consistency |
| Attic.DisputeDeposit | attic/main.rs:112-119 | disputing keeps id, client and amount and yields a held deposit |
| Attic.NewDeposit | attic/main.rs:108-110 | a new deposit is released and carries the given id, client and amount |
| Attic.ResolveDeposit | attic/main.rs:122-130 | resolving keeps id, client and amount and yields a released deposit |
| Attic.DisputeResolveRoundTrip | attic/main.rs:112-130 | dispute and resolve undo each other |
| Attic.NewAccount | attic/main.rs:249-260 | a new active account has no money and no transactions and satisfies the invariant |
| Attic.EnsureValidAmount | attic/main.rs:262-268 | an amount passes exactly when it is not negative; otherwise NegativeAmount |
| Attic.DepositRef | attic/main.rs:306-314 | Ok exactly for a released deposit, DepositAlreadyInDispute exactly for a held one, InvalidDepositRef for any other id |
| Attic.DepositKeepsInvariant | attic/main.rs:270-290 | a deposit with a new id whose total stays representable keeps the invariant |
| Attic.DepositStep | attic/main.rs:270-290 | a deposit keeps the id, held balance, held deposits and withdrawals, and a refused one changes nothing; specified in full by DepositStepCorrect |
| Attic.WithdrawStep | attic/main.rs:292-304 | a withdrawal keeps the id, held balance and deposits, and a refused one changes nothing; specified in full by WithdrawStepCorrect |
| Attic.WithdrawKeepsInvariant | attic/main.rs:292-304 | a withdrawal with a new id of at most the available balance keeps the invariant |
| Attic.DepositStepCorrect | attic/main.rs:270-290 | NegativeAmount, then Duplicate on a released or held deposit id, then Overflow on the total, each exactly; the check on available alone never fires, so a deposit passing the three checks succeeds; no change on failure; success credits available and files the deposit |
| Attic.WithdrawStepCorrect | attic/main.rs:292-304 | NegativeAmount, then InsufficientFunds, then Duplicate on a withdrawal id, each exactly; no change on failure; success debits available and files the withdrawal |
| Attic.Account.constructor | attic/main.rs:249-260 | a new account object holds the value of a new account |
| Attic.Account.Total | attic/main.rs:342-344 | the total is available plus held, never negative |
| Attic.Account.Deposit | attic/main.rs:270-290 | updates the fields as DepositStep does, and keeps the invariant |
| Attic.Account.Withdraw | attic/main.rs:292-304 | updates the fields as WithdrawStep does, and keeps the invariant |
| Attic.Account.EnsureValidDepositRef | attic/main.rs:306-314 | classifies the id as DepositRef does |
| Attic.DepositTxCorrect | attic/main.rs:393-405 | Duplicate for a consumed id, then AccessLocked for a locked client, then the account's outcome on the existing or a new account; no change on failure; ids and locked accounts never change; consistency kept |
| Attic.DepositTx | attic/main.rs:393-405 | a deposit never changes the consumed ids or the locked accounts, adds at most the client's account, and a refused one changes nothing; specified in full by DepositTxCorrect |
| Attic.WithdrawTx | attic/main.rs:407-416 | a withdrawal never changes the consumed ids, the locked accounts or which clients have accounts, and a refused one changes nothing; specified in full by WithdrawTxCorrect |
| Attic.DisputeTx | attic/main.rs:418-426 | a dispute succeeds only for an unlocked client with an active account holding the id as a released deposit; specified in full by DisputeTxCorrect |
| Attic.WithdrawTxCorrect | attic/main.rs:407-416 | Duplicate, then AccessLocked, then AccessUnavailable, then the account's outcome; no change on failure; ids and locked accounts never change; consistency kept |
| Attic.DisputeTxCorrect | attic/main.rs:418-426 | AccessLocked exactly for a locked client, AccessUnavailable exactly for a client without active account, otherwise exactly the outcome of the deposit-reference check: Ok for a released deposit, DepositAlreadyInDispute for a held one, InvalidDepositRef for any other id |
| Attic.IdReusedAfterDeposit | attic/main.rs:377-416 | a withdrawal reusing an accepted deposit's id, for the same client, is accepted |
| Attic.Database.constructor | attic/main.rs:346-358 | a new database is empty |
| Attic.Database.EnsureTxidAvailable | attic/main.rs:377-383 | passes exactly when the id is not consumed; otherwise Duplicate |
| Attic.Database.EnsureAccountNotLocked | attic/main.rs:385-391 | passes exactly when the client is not locked; otherwise AccessLocked |
| Attic.Database.Deposit | attic/main.rs:393-405 | updates the fields as DepositTx does, and keeps consistency |
| Attic.Database.Withdraw | attic/main.rs:407-416 | updates the fields as WithdrawTx does, and keeps consistency |
| Attic.Database.Dispute | attic/main.rs:418-426 | returns the result DisputeTx gives, changing nothing |

## Left out

- Reading the input CSV, command-line options, logging and writing the output
  table (src/main.rs, src/lib.rs, attic/main.rs:429-611) are I/O. The ledger is
  given its records as values.
- The account's output row (src/account.rs:121-135) is left out. It is
  serialisation, and its `locked` column is always false.
- The iterators and getters (`Db::accounts`, `Db::get_account`, the account's
  `id`/`available`/`held`, the draft's `active_accounts`, `locked_accounts`,
  `get_active_account` and `get_locked_account`) only read state and are left
  out. The model reads the fields directly.
- Decimal internals are left out. An amount is an integer number of smallest
  units, so scale and rounding are not modelled. A negative zero, which
  `is_sign_negative` refuses, has no counterpart.
- The iteration order of the hash maps and of the draft's ordered id set is left
  out. Nothing in the ledger depends on it, so the model uses maps and sets.
- Locking an account on chargeback is left out. No code in either version
  locks an account.
- The draft's database starts with no locked accounts and no consumed ids, and
  nothing ever adds to either set. Its lock and duplicate checks are modelled
  as written.
- src/chargeback.rs does not say where a reversed deposit goes.
  Accounts.ChargebackStep discards it.
- Accounts.Account.Deposit and Accounts.Account.Withdraw require the id to be
  new to the account. The source relies on the database for this
  (src/account.rs:72, src/account.rs:88).
- The step functions require the record's client to be the account's. The
  source asserts this and panics otherwise (src/account.rs:63, src/account.rs:82,
  src/account.rs:96).
- The database has no resolve or chargeback (src/db.rs:60-73). Db.ResolveTx,
  Db.ChargebackTx, the account's ResolveStep and ChargebackStep, and the matching
  methods are reconstructed. They follow the documented contracts of
  src/resolve.rs and src/chargeback.rs and have the shape of the dispute path.
- The draft's account-level dispute (attic/main.rs:316-326) ends after removing
  the deposit, without moving any balance or returning a result. The model
  stops at its reference check, and Attic.Database.Dispute changes nothing.
  The draft's `process` (attic/main.rs:508-529) has unfinished arms and is left out.
- The database tables hold accounts by value, as the source's hash maps own
  them. The database methods apply the step function that the account method
  of the same name is proved against, instead of calling the account object.
  Aliasing cannot occur in the source.
- The unit tests valid_transactions and invalid_withdraw (src/db.rs:132-163) are
  not restated as concrete scenarios. Their behaviour is covered by
  Db.DepositTxCorrect, Db.WithdrawTxCorrect and Db.ProcessIsolation.

## Findings

| source | as written | input that shows it | evidently intended | confidence | as-written member | corrected member |
|---|---|---|---|---|---|---|
| attic/main.rs:393-416 | the draft's database checks consumed ids but never records one, so its Duplicate check never fires | deposit tx 4 for client 1 of 5, then withdrawal tx 4 for client 1 of 5: both are accepted | the withdrawal is refused as Duplicate, as the current database does by recording the id (src/db.rs:85-89) | high; not executed | Attic.IdReusedAfterDeposit | Db.DuplicateTxId |
