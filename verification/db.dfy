/**
 * The database of accounts (src/db.rs): the single entry point that applies an
 * input record to the right account.
 *
 * It owns the accounts, keyed by client, and the set of transaction ids that
 * deposits and withdrawals have consumed. It rejects a deposit or withdrawal
 * whose id was already consumed, creates an account only when a first deposit
 * for a client succeeds, and records an id only after the account accepted the
 * transaction. As for the account, the class Db updates its fields in place
 * and each of its methods is specified by a pure function on DbState. Its
 * table owns the accounts by value, as the source's map does, so an account is
 * updated through the step function that the Account class's method of the
 * same name is proved against.
 *
 * The source's dispatch has no case for resolve and chargeback records; the
 * functions ResolveTx and ChargebackTx, the methods Resolve and Chargeback and
 * the two matching cases of ProcessTx are reconstructed, with the same shape as
 * the dispute case.
 */
module Db {
  import opened Ids
  import opened Options
  import opened Decimals
  import opened Errors
  import Txs
  import Deposits
  import Withdraws
  import Disputes
  import Resolves
  import Chargebacks
  import opened Accounts

  datatype DbState = DbState(accounts: map<ClientId, AccountState>, txIds: set<TxId>)

  function Empty(): DbState
  {
    DbState(map[], {})
  }

  /** Every account is filed under its own client. */
  predicate Keyed(s: DbState)
  {
    forall c :: c in s.accounts ==> s.accounts[c].id == c
  }

  /**
   * The database invariant: every account is filed under its own client and
   * keeps the account invariant, and every id any account has recorded has
   * been consumed.
   */
  ghost predicate Consistent(s: DbState)
  {
    forall c :: c in s.accounts ==>
      && s.accounts[c].id == c
      && Invariant(s.accounts[c])
      && TxIdsOf(s.accounts[c]) <= s.txIds
  }

  // ---------------------------------------------------------------------------
  // The amount checks of process.

  function EnsureAmount(tx: Txs.Tx): (r: Result<Decimal>)
    ensures r.Ok? <==> tx.amount.Some?
    ensures r.Ok? ==> tx.amount == Some(r.value)
    ensures r.Err? ==> r.error == MissingAmount
  {
    match tx.amount
    case Some(amount) => Ok(amount)
    case None => Err(MissingAmount)
  }

  function EnsureNoAmount(tx: Txs.Tx): (r: TxResult)
    ensures r.Ok? <==> tx.amount.None?
    ensures r.Err? ==> r.error == ExtraneousAmount
  {
    match tx.amount
    case Some(_) => Err(ExtraneousAmount)
    case None => Ok(())
  }

  // ---------------------------------------------------------------------------
  // The operations, as functions from the old database to the new one and the
  // result.

  function DepositTx(s: DbState, id: TxId, client: ClientId, amount: Decimal): (r: (DbState, TxResult))
    requires Keyed(s)
    ensures Keyed(r.0)
  {
    match Deposits.New(id, client, amount)
    case Err(e) => (s, Err(e))
    case Ok(d) =>
      if id in s.txIds then (s, Err(Duplicate))
      else if client in s.accounts then
        var (a', r) := DepositStep(s.accounts[client], d);
        var s' := s.(accounts := s.accounts[client := a']);
        if r.Err? then (s', r) else (s'.(txIds := s.txIds + {id}), Ok(()))
      else
        // A new account is kept only if the deposit into it succeeds.
        var (a', r) := DepositStep(NewAccount(client), d);
        if r.Err? then (s, r) else (DbState(s.accounts[client := a'], s.txIds + {id}), Ok(()))
  }

  function WithdrawTx(s: DbState, id: TxId, client: ClientId, amount: Decimal): (r: (DbState, TxResult))
    requires Keyed(s)
    ensures Keyed(r.0)
  {
    match Withdraws.New(id, client, amount)
    case Err(e) => (s, Err(e))
    case Ok(w) =>
      if id in s.txIds then (s, Err(Duplicate))
      else if client in s.accounts then
        var (a', r) := WithdrawStep(s.accounts[client], w);
        var s' := s.(accounts := s.accounts[client := a']);
        if r.Err? then (s', r) else (s'.(txIds := s.txIds + {id}), Ok(()))
      else (s, Err(AccessUnavailable))
  }

  function DisputeTx(s: DbState, id: TxId, client: ClientId): (r: (DbState, TxResult))
    requires Keyed(s)
    ensures Keyed(r.0)
  {
    var tx := Disputes.Dispute(id, client);
    if id !in s.txIds then (s, Err(MissingTx))
    else if client in s.accounts then
      var (a', r) := DisputeStep(s.accounts[client], tx);
      (s.(accounts := s.accounts[client := a']), r)
    else (s, Err(AccessUnavailable))
  }

  function ResolveTx(s: DbState, id: TxId, client: ClientId): (r: (DbState, TxResult))
    requires Keyed(s)
    ensures Keyed(r.0)
  {
    var tx := Resolves.Resolve(id, client);
    if id !in s.txIds then (s, Err(MissingTx))
    else if client in s.accounts then
      var (a', r) := ResolveStep(s.accounts[client], tx);
      (s.(accounts := s.accounts[client := a']), r)
    else (s, Err(AccessUnavailable))
  }

  function ChargebackTx(s: DbState, id: TxId, client: ClientId): (r: (DbState, TxResult))
    requires Keyed(s)
    ensures Keyed(r.0)
  {
    var tx := Chargebacks.Chargeback(id, client);
    if id !in s.txIds then (s, Err(MissingTx))
    else if client in s.accounts then
      var (a', r) := ChargebackStep(s.accounts[client], tx);
      (s.(accounts := s.accounts[client := a']), r)
    else (s, Err(AccessUnavailable))
  }

  /** Applies one input record; every account stays filed under its own client. */
  function ProcessTx(s: DbState, tx: Txs.Tx): (r: (DbState, TxResult))
    requires Keyed(s)
    ensures Keyed(r.0)
  {
    var id := tx.tx as TxId;
    var client := tx.client as ClientId;
    match tx.typ
    case Deposit =>
      (match EnsureAmount(tx)
       case Err(e) => (s, Err(e))
       case Ok(amount) => DepositTx(s, id, client, amount))
    case Withdrawal =>
      (match EnsureAmount(tx)
       case Err(e) => (s, Err(e))
       case Ok(amount) => WithdrawTx(s, id, client, amount))
    case Dispute =>
      (match EnsureNoAmount(tx)
       case Err(e) => (s, Err(e))
       case Ok(_) => DisputeTx(s, id, client))
    case Resolve =>
      (match EnsureNoAmount(tx)
       case Err(e) => (s, Err(e))
       case Ok(_) => ResolveTx(s, id, client))
    case Chargeback =>
      (match EnsureNoAmount(tx)
       case Err(e) => (s, Err(e))
       case Ok(_) => ChargebackTx(s, id, client))
  }

  /** Applies a sequence of records in order, one at a time. */
  function Run(s: DbState, txs: seq<Txs.Tx>): (r: DbState)
    requires Keyed(s)
    ensures Keyed(r)
    decreases |txs|
  {
    if txs == [] then s else Run(ProcessTx(s, txs[0]).0, txs[1..])
  }

  /** Filing a consistent account under its client, with more ids consumed, keeps the database consistent. */
  lemma ConsistentUpdate(s: DbState, client: ClientId, a: AccountState, txIds: set<TxId>)
    requires Consistent(s) && s.txIds <= txIds
    requires a.id == client && Invariant(a) && TxIdsOf(a) <= txIds
    ensures Consistent(DbState(s.accounts[client := a], txIds))
  {
    var s' := DbState(s.accounts[client := a], txIds);
    forall c | c in s'.accounts
      ensures s'.accounts[c].id == c && Invariant(s'.accounts[c]) && TxIdsOf(s'.accounts[c]) <= s'.txIds
    {
      if c != client {
        assert s'.accounts[c] == s.accounts[c];
      }
    }
  }

  /** The account a record for `client` is applied to: the stored one, or a fresh one. */
  function AccountOf(s: DbState, client: ClientId): AccountState
  {
    if client in s.accounts then s.accounts[client] else NewAccount(client)
  }

  // ---------------------------------------------------------------------------
  // The checks of process and their order.

  /**
   * A deposit or withdrawal without an amount fails with MissingAmount, and a
   * dispute, resolve or chargeback with an amount fails with ExtraneousAmount;
   * no other record fails with either, and neither failure changes anything.
   */
  lemma ProcessAmountChecks(s: DbState, tx: Txs.Tx)
    requires Keyed(s)
    ensures var (s', r) := ProcessTx(s, tx);
      && (r == Err(MissingAmount) <==> Txs.NeedsAmount(tx.typ) && tx.amount.None?)
      && (r == Err(ExtraneousAmount) <==> !Txs.NeedsAmount(tx.typ) && tx.amount.Some?)
      && (r == Err(MissingAmount) || r == Err(ExtraneousAmount) ==> s' == s)
  {
  }

  /** Records built by the constructors of Txs never fail the amount checks. */
  lemma WellFormedPassesAmountChecks(s: DbState, tx: Txs.Tx)
    requires Keyed(s) && Txs.WellFormed(tx)
    ensures ProcessTx(s, tx).1 != Err(MissingAmount)
    ensures ProcessTx(s, tx).1 != Err(ExtraneousAmount)
  {
    ProcessAmountChecks(s, tx);
  }

  /**
   * A deposit or withdrawal is checked in this order: a negative amount fails
   * with NegativeAmount, then a consumed id with Duplicate, then a withdrawal
   * for a client without an account with AccessUnavailable. Each failure
   * changes nothing.
   */
  lemma MoneyTxCheckOrder(s: DbState, tx: Txs.Tx, v: Decimal)
    requires Keyed(s) && Txs.NeedsAmount(tx.typ) && tx.amount == Some(v)
    ensures var (s', r) := ProcessTx(s, tx);
      && (v < 0 ==> s' == s && r == Err(NegativeAmount))
      && (0 <= v && tx.tx as TxId in s.txIds ==> s' == s && r == Err(Duplicate))
      && (0 <= v && tx.tx as TxId !in s.txIds && tx.typ == Txs.Withdrawal && tx.client as ClientId !in s.accounts
          ==> s' == s && r == Err(AccessUnavailable))
  {
  }

  /**
   * A dispute, resolve or chargeback is checked in this order: an id no deposit
   * or withdrawal consumed fails with MissingTx, then a client without an
   * account with AccessUnavailable; each failure changes nothing, and no such
   * record ever consumes an id.
   */
  lemma ReferenceTxChecks(s: DbState, tx: Txs.Tx)
    requires Keyed(s) && !Txs.NeedsAmount(tx.typ) && tx.amount.None?
    ensures var (s', r) := ProcessTx(s, tx);
      && s'.txIds == s.txIds
      && (tx.tx as TxId !in s.txIds ==> s' == s && r == Err(MissingTx))
      && (tx.tx as TxId in s.txIds && tx.client as ClientId !in s.accounts ==> s' == s && r == Err(AccessUnavailable))
  {
  }

  /**
   * Each kind of record, once its amount check passes, reaches its own
   * operation: a deposit or withdrawal the database operation of that kind, and
   * a dispute, resolve or chargeback of a consumed id for a client with an
   * account exactly the account's operation of that kind on that account alone.
   */
  lemma ProcessDispatch(s: DbState, tx: Txs.Tx)
    requires Keyed(s)
    ensures var id, client := tx.tx as TxId, tx.client as ClientId;
      var (s', r) := ProcessTx(s, tx);
      && (tx.typ == Txs.Deposit && tx.amount.Some? ==> (s', r) == DepositTx(s, id, client, tx.amount.value))
      && (tx.typ == Txs.Withdrawal && tx.amount.Some? ==> (s', r) == WithdrawTx(s, id, client, tx.amount.value))
      && (tx.amount.None? && id in s.txIds && client in s.accounts ==>
            && s'.txIds == s.txIds
            && s'.accounts == s.accounts[client := s'.accounts[client]]
            && (tx.typ == Txs.Dispute ==>
                  (s'.accounts[client], r) == DisputeStep(s.accounts[client], Disputes.Dispute(id, client)))
            && (tx.typ == Txs.Resolve ==>
                  (s'.accounts[client], r) == ResolveStep(s.accounts[client], Resolves.Resolve(id, client)))
            && (tx.typ == Txs.Chargeback ==>
                  (s'.accounts[client], r) == ChargebackStep(s.accounts[client], Chargebacks.Chargeback(id, client))))
  {
    var id, client := tx.tx as TxId, tx.client as ClientId;
    if tx.amount.None? && id in s.txIds && client in s.accounts {
      match tx.typ
      case Dispute => DisputeTxCorrect(s, id, client);
      case Resolve => ResolveTxCorrect(s, id, client);
      case Chargeback => ChargebackTxCorrect(s, id, client);
      case _ =>
    }
  }

  // ---------------------------------------------------------------------------
  // What each operation does to a consistent database.

  /**
   * A deposit fails with NegativeAmount exactly when the amount is negative,
   * then with Duplicate exactly when the id is consumed, then with Overflow
   * exactly when the client's new total would not be representable; a failure
   * changes nothing (in particular a failed first deposit creates no account).
   * A success consumes the id, files under the client the account that the
   * account's own deposit produces (creating the account if needed), and
   * touches no other account.
   */
  lemma DepositTxCorrect(s: DbState, id: TxId, client: ClientId, amount: Decimal)
    requires Consistent(s)
    ensures var (s', r) := DepositTx(s, id, client, amount);
      && (r.Err? ==> s' == s)
      && (r == Err(NegativeAmount) <==> amount < 0)
      && (r == Err(Duplicate) <==> 0 <= amount && id in s.txIds)
      && (r == Err(Overflow) <==> 0 <= amount && id !in s.txIds && TotalOf(AccountOf(s, client)) + amount > MAX)
      && (r.Ok? || r == Err(NegativeAmount) || r == Err(Duplicate) || r == Err(Overflow))
      && (r.Ok? ==> && id !in s.txIds && s'.txIds == s.txIds + {id}
                    && client in s'.accounts && s'.accounts.Keys == s.accounts.Keys + {client}
                    && s'.accounts == s.accounts[client := s'.accounts[client]]
                    && s'.accounts[client].available == AccountOf(s, client).available + amount
                    && s'.accounts[client].held == AccountOf(s, client).held
                    && 0 <= amount
                    && s'.accounts[client]
                       == DepositStep(AccountOf(s, client), Deposits.Deposit(id, client, amount, Deposits.DepositReleased)).0)
  {
    if 0 <= amount && id !in s.txIds {
      var d := Deposits.Deposit(id, client, amount, Deposits.DepositReleased);
      var a := AccountOf(s, client);
      assert TxIdsOf(a) <= s.txIds;
      DepositCorrect(a, d);
      var (a', r) := DepositStep(a, d);
      if r.Err? && client in s.accounts {
        assert s.accounts[client := a'] == s.accounts;
      }
    }
  }

  /**
   * A withdrawal fails with NegativeAmount exactly when the amount is negative,
   * then with Duplicate exactly when the id is consumed, then with
   * AccessUnavailable exactly when the client has no account, then with
   * Insufficient exactly when it asks for more than is available; a failure
   * changes nothing. A success consumes the id, files under the client the
   * account that the account's own withdrawal produces, and touches no other
   * account.
   */
  lemma WithdrawTxCorrect(s: DbState, id: TxId, client: ClientId, amount: Decimal)
    requires Keyed(s)
    ensures var (s', r) := WithdrawTx(s, id, client, amount);
      && (r.Err? ==> s' == s)
      && (r == Err(NegativeAmount) <==> amount < 0)
      && (r == Err(Duplicate) <==> 0 <= amount && id in s.txIds)
      && (r == Err(AccessUnavailable) <==> 0 <= amount && id !in s.txIds && client !in s.accounts)
      && (r == Err(Insufficient) <==>
            0 <= amount && id !in s.txIds && client in s.accounts && amount > s.accounts[client].available)
      && (r.Ok? || r == Err(NegativeAmount) || r == Err(Duplicate) || r == Err(AccessUnavailable) || r == Err(Insufficient))
      && (r.Ok? ==> && id !in s.txIds && s'.txIds == s.txIds + {id} && client in s.accounts
                    && s'.accounts == s.accounts[client := s'.accounts[client]]
                    && s'.accounts[client].available == s.accounts[client].available - amount
                    && s'.accounts[client].held == s.accounts[client].held
                    && 0 <= amount
                    && s'.accounts[client] == WithdrawStep(s.accounts[client], Withdraws.Withdraw(id, client, amount)).0)
  {
    if 0 <= amount && id !in s.txIds && client in s.accounts {
      var (a', r) := WithdrawStep(s.accounts[client], Withdraws.Withdraw(id, client, amount));
      if r.Err? {
        assert s.accounts[client := a'] == s.accounts;
      }
    }
  }

  /**
   * A dispute fails with MissingTx when the id was never consumed, then with
   * AccessUnavailable when the client has no account, and otherwise has the
   * outcome of the account's dispute; it never consumes an id, a failure
   * changes nothing, and no other account is touched.
   */
  lemma DisputeTxCorrect(s: DbState, id: TxId, client: ClientId)
    requires Keyed(s)
    ensures var (s', r) := DisputeTx(s, id, client);
      && s'.txIds == s.txIds && s'.accounts.Keys == s.accounts.Keys
      && (r.Err? ==> s' == s)
      && (r == Err(MissingTx) <==> id !in s.txIds)
      && (r == Err(AccessUnavailable) <==> id in s.txIds && client !in s.accounts)
      && (id in s.txIds && client in s.accounts ==>
            && s'.accounts == s.accounts[client := s'.accounts[client]]
            && (s'.accounts[client], r) == DisputeStep(s.accounts[client], Disputes.Dispute(id, client)))
  {
    if id in s.txIds && client in s.accounts {
      var (a', r) := DisputeStep(s.accounts[client], Disputes.Dispute(id, client));
      if r.Err? {
        assert s.accounts[client := a'] == s.accounts;
      }
    }
  }

  /** As DisputeTxCorrect, for a resolve (reconstructed). */
  lemma ResolveTxCorrect(s: DbState, id: TxId, client: ClientId)
    requires Keyed(s)
    ensures var (s', r) := ResolveTx(s, id, client);
      && s'.txIds == s.txIds && s'.accounts.Keys == s.accounts.Keys
      && (r.Err? ==> s' == s)
      && (r == Err(MissingTx) <==> id !in s.txIds)
      && (r == Err(AccessUnavailable) <==> id in s.txIds && client !in s.accounts)
      && (id in s.txIds && client in s.accounts ==>
            && s'.accounts == s.accounts[client := s'.accounts[client]]
            && (s'.accounts[client], r) == ResolveStep(s.accounts[client], Resolves.Resolve(id, client)))
  {
    if id in s.txIds && client in s.accounts {
      var (a', r) := ResolveStep(s.accounts[client], Resolves.Resolve(id, client));
      if r.Err? {
        assert s.accounts[client := a'] == s.accounts;
      }
    }
  }

  /** As DisputeTxCorrect, for a chargeback (reconstructed). */
  lemma ChargebackTxCorrect(s: DbState, id: TxId, client: ClientId)
    requires Keyed(s)
    ensures var (s', r) := ChargebackTx(s, id, client);
      && s'.txIds == s.txIds && s'.accounts.Keys == s.accounts.Keys
      && (r.Err? ==> s' == s)
      && (r == Err(MissingTx) <==> id !in s.txIds)
      && (r == Err(AccessUnavailable) <==> id in s.txIds && client !in s.accounts)
      && (id in s.txIds && client in s.accounts ==>
            && s'.accounts == s.accounts[client := s'.accounts[client]]
            && (s'.accounts[client], r) == ChargebackStep(s.accounts[client], Chargebacks.Chargeback(id, client)))
  {
    if id in s.txIds && client in s.accounts {
      var (a', r) := ChargebackStep(s.accounts[client], Chargebacks.Chargeback(id, client));
      if r.Err? {
        assert s.accounts[client := a'] == s.accounts;
      }
    }
  }

  // ---------------------------------------------------------------------------
  // The database invariant is kept by every operation.

  lemma DepositTxKeepsConsistent(s: DbState, id: TxId, client: ClientId, amount: Decimal)
    requires Consistent(s)
    ensures Consistent(DepositTx(s, id, client, amount).0)
  {
    if 0 <= amount && id !in s.txIds {
      var d := Deposits.Deposit(id, client, amount, Deposits.DepositReleased);
      var a := AccountOf(s, client);
      assert TxIdsOf(a) <= s.txIds;
      DepositCorrect(a, d);
      var (a', r) := DepositStep(a, d);
      ConsistentUpdate(s, client, a', s.txIds + {id});
    }
  }

  lemma WithdrawTxKeepsConsistent(s: DbState, id: TxId, client: ClientId, amount: Decimal)
    requires Consistent(s)
    ensures Consistent(WithdrawTx(s, id, client, amount).0)
  {
    if 0 <= amount && id !in s.txIds && client in s.accounts {
      var w := Withdraws.Withdraw(id, client, amount);
      var a := s.accounts[client];
      assert TxIdsOf(a) <= s.txIds;
      WithdrawCorrect(a, w);
      var (a', r) := WithdrawStep(a, w);
      ConsistentUpdate(s, client, a', s.txIds + {id});
    }
  }

  lemma DisputeTxKeepsConsistent(s: DbState, id: TxId, client: ClientId)
    requires Consistent(s)
    ensures Consistent(DisputeTx(s, id, client).0)
  {
    if id in s.txIds && client in s.accounts {
      var a := s.accounts[client];
      DisputeCorrect(a, Disputes.Dispute(id, client));
      ConsistentUpdate(s, client, DisputeStep(a, Disputes.Dispute(id, client)).0, s.txIds);
    }
  }

  lemma ResolveTxKeepsConsistent(s: DbState, id: TxId, client: ClientId)
    requires Consistent(s)
    ensures Consistent(ResolveTx(s, id, client).0)
  {
    if id in s.txIds && client in s.accounts {
      var a := s.accounts[client];
      ResolveCorrect(a, Resolves.Resolve(id, client));
      ConsistentUpdate(s, client, ResolveStep(a, Resolves.Resolve(id, client)).0, s.txIds);
    }
  }

  lemma ChargebackTxKeepsConsistent(s: DbState, id: TxId, client: ClientId)
    requires Consistent(s)
    ensures Consistent(ChargebackTx(s, id, client).0)
  {
    if id in s.txIds && client in s.accounts {
      var a := s.accounts[client];
      ChargebackCorrect(a, Chargebacks.Chargeback(id, client));
      ConsistentUpdate(s, client, ChargebackStep(a, Chargebacks.Chargeback(id, client)).0, s.txIds);
    }
  }

  // ---------------------------------------------------------------------------
  // Properties of process.

  /** Processing any record keeps the database consistent. */
  lemma ProcessKeepsConsistent(s: DbState, tx: Txs.Tx)
    requires Consistent(s)
    ensures Consistent(ProcessTx(s, tx).0)
  {
    var id := tx.tx as TxId;
    var client := tx.client as ClientId;
    match tx.typ
    case Deposit =>
      if tx.amount.Some? { DepositTxKeepsConsistent(s, id, client, tx.amount.value); }
    case Withdrawal =>
      if tx.amount.Some? { WithdrawTxKeepsConsistent(s, id, client, tx.amount.value); }
    case Dispute =>
      if tx.amount.None? { DisputeTxKeepsConsistent(s, id, client); }
    case Resolve =>
      if tx.amount.None? { ResolveTxKeepsConsistent(s, id, client); }
    case Chargeback =>
      if tx.amount.None? { ChargebackTxKeepsConsistent(s, id, client); }
  }

  /**
   * Processing is all-or-nothing, and consumes an id only for an accepted
   * deposit or withdrawal, whose id was not yet consumed.
   */
  lemma ProcessAllOrNothing(s: DbState, tx: Txs.Tx)
    requires Keyed(s)
    ensures var (s', r) := ProcessTx(s, tx);
      && (r.Err? ==> s' == s)
      && (r.Ok? && Txs.NeedsAmount(tx.typ) ==> tx.tx as TxId !in s.txIds && s'.txIds == s.txIds + {tx.tx as TxId})
      && (r.Err? || !Txs.NeedsAmount(tx.typ) ==> s'.txIds == s.txIds)
  {
    var id := tx.tx as TxId;
    var client := tx.client as ClientId;
    match tx.typ
    case Deposit =>
      if tx.amount.Some? && 0 <= tx.amount.value && id !in s.txIds && client in s.accounts {
        var d := Deposits.Deposit(id, client, tx.amount.value, Deposits.DepositReleased);
        var (a', r) := DepositStep(s.accounts[client], d);
        if r.Err? {
          assert s.accounts[client := a'] == s.accounts;
        }
      }
    case Withdrawal =>
      if tx.amount.Some? { WithdrawTxCorrect(s, id, client, tx.amount.value); }
    case Dispute =>
      if tx.amount.None? { DisputeTxCorrect(s, id, client); }
    case Resolve =>
      if tx.amount.None? { ResolveTxCorrect(s, id, client); }
    case Chargeback =>
      if tx.amount.None? { ChargebackTxCorrect(s, id, client); }
  }

  /** A record for one client never changes, creates or removes another client's account. */
  lemma ProcessIsolation(s: DbState, tx: Txs.Tx, c: ClientId)
    requires Keyed(s) && c != tx.client as ClientId
    ensures var s' := ProcessTx(s, tx).0;
      && (c in s'.accounts <==> c in s.accounts)
      && (c in s.accounts ==> s'.accounts[c] == s.accounts[c])
  {
  }

  /**
   * Accounts are never removed, and only an accepted deposit adds one: the
   * account of its client.
   */
  lemma AccountsCreatedOnlyByDeposit(s: DbState, tx: Txs.Tx)
    requires Keyed(s)
    ensures var (s', r) := ProcessTx(s, tx);
      && s.accounts.Keys <= s'.accounts.Keys
      && s'.accounts.Keys <= s.accounts.Keys + (if tx.typ == Txs.Deposit && r.Ok? then {tx.client as ClientId} else {})
  {
  }

  /** Consumed ids stay consumed. */
  lemma ProcessKeepsTxIds(s: DbState, tx: Txs.Tx)
    requires Keyed(s)
    ensures s.txIds <= ProcessTx(s, tx).0.txIds
  {
  }

  lemma {:induction false} RunKeepsTxIds(s: DbState, txs: seq<Txs.Tx>)
    requires Keyed(s)
    ensures s.txIds <= Run(s, txs).txIds
    decreases |txs|
  {
    if txs != [] {
      ProcessKeepsTxIds(s, txs[0]);
      RunKeepsTxIds(ProcessTx(s, txs[0]).0, txs[1..]);
    }
  }

  lemma {:induction false} RunKeepsConsistent(s: DbState, txs: seq<Txs.Tx>)
    requires Consistent(s)
    ensures Consistent(Run(s, txs))
    decreases |txs|
  {
    if txs != [] {
      ProcessKeepsConsistent(s, txs[0]);
      RunKeepsConsistent(ProcessTx(s, txs[0]).0, txs[1..]);
    }
  }

  /**
   * Once a deposit or withdrawal is accepted, every later deposit or withdrawal
   * with the same id and a non-negative amount, whatever came in between, is
   * rejected with Duplicate and changes nothing.
   */
  lemma IdNeverReused(s: DbState, t: Txs.Tx, txs: seq<Txs.Tx>, u: Txs.Tx, v: Decimal)
    requires Keyed(s) && Txs.NeedsAmount(t.typ) && ProcessTx(s, t).1.Ok?
    requires Txs.NeedsAmount(u.typ) && u.tx == t.tx && u.amount == Some(v) && 0 <= v
    ensures var s2 := Run(ProcessTx(s, t).0, txs);
      ProcessTx(s2, u) == (s2, Err(Duplicate))
  {
    var s1 := ProcessTx(s, t).0;
    assert t.tx as TxId in s1.txIds;
    RunKeepsTxIds(s1, txs);
    MoneyTxCheckOrder(Run(s1, txs), u, v);
  }

  // ---------------------------------------------------------------------------
  // The scenarios of the source's own unit tests.

  /**
   * Generalises the duplicate_tx_id unit test: after a first deposit is
   * accepted, a withdrawal reusing its id is a Duplicate, for any clients and
   * amounts.
   */
  lemma DuplicateTxId(id: TxId, c1: ClientId, c2: ClientId, x: Decimal, y: Decimal)
    requires 0 <= x && 0 <= y
    ensures var s1 := ProcessTx(Empty(), Txs.NewDeposit(id as Uint32, c1 as Uint16, x));
      s1.1.Ok? && ProcessTx(s1.0, Txs.NewWithdraw(id as Uint32, c2 as Uint16, y)) == (s1.0, Err(Duplicate))
  {
    DepositTxCorrect(Empty(), id, c1, x);
    MoneyTxCheckOrder(DepositTx(Empty(), id, c1, x).0, Txs.NewWithdraw(id as Uint32, c2 as Uint16, y), y);
  }

  // ---------------------------------------------------------------------------
  // The database as the source has it: the account table and the id set
  // updated in place. The table owns its accounts by value, so an account is
  // updated by the step function its own methods are proved against.

  class Db {
    var accounts: map<ClientId, AccountState>
    var txIds: set<TxId>

    /** The value of the database. */
    function State(): DbState
      reads this
    {
      DbState(accounts, txIds)
    }

    /** Every account is filed under its own client and satisfies its invariant. */
    ghost predicate Valid()
      reads this
    {
      Consistent(State())
    }

    constructor ()
      ensures Valid() && State() == Empty()
    {
      accounts, txIds := map[], {};
    }

    method Process(tx: Txs.Tx) returns (r: TxResult)
      requires Valid()
      modifies this
      ensures Valid()
      ensures (State(), r) == ProcessTx(old(State()), tx)
    {
      var id := tx.tx as TxId;
      var client := tx.client as ClientId;
      match tx.typ {
        case Deposit =>
          var amount := EnsureAmount(tx);
          if amount.Err? {
            return Err(amount.error);
          }
          r := Deposit(id, client, amount.value);
        case Withdrawal =>
          var amount := EnsureAmount(tx);
          if amount.Err? {
            return Err(amount.error);
          }
          r := Withdraw(id, client, amount.value);
        case Dispute =>
          var none := EnsureNoAmount(tx);
          if none.Err? {
            return none;
          }
          r := Dispute(id, client);
        case Resolve =>
          var none := EnsureNoAmount(tx);
          if none.Err? {
            return none;
          }
          r := Resolve(id, client);
        case Chargeback =>
          var none := EnsureNoAmount(tx);
          if none.Err? {
            return none;
          }
          r := Chargeback(id, client);
      }
    }

    method Deposit(id: TxId, client: ClientId, amount: Decimal) returns (r: TxResult)
      requires Valid()
      modifies this
      ensures Valid()
      ensures (State(), r) == DepositTx(old(State()), id, client, amount)
    {
      DepositTxKeepsConsistent(State(), id, client, amount);
      var d := Deposits.New(id, client, amount);
      if d.Err? {
        return Err(d.error);
      }
      if id in txIds {
        return Err(Duplicate);
      }
      if client in accounts {
        var (account, res) := DepositStep(accounts[client], d.value);
        accounts := accounts[client := account];
        if res.Err? {
          return res;
        }
        txIds := txIds + {id};
      } else {
        var (account, res) := DepositStep(NewAccount(client), d.value);
        if res.Err? {
          return res;
        }
        txIds := txIds + {id};
        accounts := accounts[client := account];
      }
      return Ok(());
    }

    method Withdraw(id: TxId, client: ClientId, amount: Decimal) returns (r: TxResult)
      requires Valid()
      modifies this
      ensures Valid()
      ensures (State(), r) == WithdrawTx(old(State()), id, client, amount)
    {
      WithdrawTxKeepsConsistent(State(), id, client, amount);
      var w := Withdraws.New(id, client, amount);
      if w.Err? {
        return Err(w.error);
      }
      if id in txIds {
        return Err(Duplicate);
      }
      if client in accounts {
        var (account, res) := WithdrawStep(accounts[client], w.value);
        accounts := accounts[client := account];
        if res.Err? {
          return res;
        }
        txIds := txIds + {id};
        return Ok(());
      } else {
        return Err(AccessUnavailable);
      }
    }

    method Dispute(id: TxId, client: ClientId) returns (r: TxResult)
      requires Valid()
      modifies this
      ensures Valid()
      ensures (State(), r) == DisputeTx(old(State()), id, client)
    {
      DisputeTxKeepsConsistent(State(), id, client);
      var tx := Disputes.Dispute(id, client);
      if id !in txIds {
        return Err(MissingTx);
      }
      if client in accounts {
        var (account, res) := DisputeStep(accounts[client], tx);
        accounts := accounts[client := account];
        return res;
      } else {
        return Err(AccessUnavailable);
      }
    }

    /** Reconstructed: the source's database has no resolve operation. */
    method Resolve(id: TxId, client: ClientId) returns (r: TxResult)
      requires Valid()
      modifies this
      ensures Valid()
      ensures (State(), r) == ResolveTx(old(State()), id, client)
    {
      ResolveTxKeepsConsistent(State(), id, client);
      var tx := Resolves.Resolve(id, client);
      if id !in txIds {
        return Err(MissingTx);
      }
      if client in accounts {
        var (account, res) := ResolveStep(accounts[client], tx);
        accounts := accounts[client := account];
        return res;
      } else {
        return Err(AccessUnavailable);
      }
    }

    /** Reconstructed: the source's database has no chargeback operation. */
    method Chargeback(id: TxId, client: ClientId) returns (r: TxResult)
      requires Valid()
      modifies this
      ensures Valid()
      ensures (State(), r) == ChargebackTx(old(State()), id, client)
    {
      ChargebackTxKeepsConsistent(State(), id, client);
      var tx := Chargebacks.Chargeback(id, client);
      if id !in txIds {
        return Err(MissingTx);
      }
      if client in accounts {
        var (account, res) := ChargebackStep(accounts[client], tx);
        accounts := accounts[client := account];
        return res;
      } else {
        return Err(AccessUnavailable);
      }
    }
  }
}
