/**
 * The older draft of the engine (attic/main.rs).
 *
 * The draft has its own error type and its own account and database. Its
 * account checks duplicates itself: a deposit id already filed as a released
 * or a held deposit, or a withdrawal id already filed as a withdrawal. Its
 * database keeps a set of locked accounts and a set of consumed transaction
 * ids, and rejects records that touch a locked account or reuse a consumed id.
 * No operation of the draft ever adds to either set, and its account-level
 * dispute stops after checking the reference, so the model of a dispute is
 * that check and changes nothing.
 *
 * As in the current engine, the class Account updates its fields in place and
 * each of its methods is specified by a pure step function on AccountValue;
 * the class Database owns its accounts by value and applies those step
 * functions.
 */
module Attic {
  import opened Ids
  import opened Decimals
  import opened Sums

  datatype TxError =
    | NegativeAmount
    | InsufficientFunds
    | AccessLocked
    | AccessUnavailable
    | Overflow
    | Duplicate
    | InvalidDepositRef
    | DepositAlreadyInDispute

  /** The draft's result of an operation: success carries no value. */
  datatype TxResult = Ok | Err(error: TxError)

  // ---------------------------------------------------------------------------
  // Deposits and withdrawals. The source encodes a deposit's state in its type;
  // the subset types ReleasedDeposit and HeldDeposit play that role. A deposit
  // or withdrawal is only built after its amount was found non-negative.

  datatype DepositState = Released | Held

  datatype Deposit = Deposit(id: TxId, client: ClientId, amount: Amount, state: DepositState)

  type ReleasedDeposit = d: Deposit | d.state == Released
    witness Deposit(0, 0, 0, Released)

  type HeldDeposit = d: Deposit | d.state == Held
    witness Deposit(0, 0, 0, Held)

  datatype Withdrawal = Withdrawal(id: TxId, client: ClientId, amount: Amount)

  /** A new deposit is released. */
  function NewDeposit(id: TxId, client: ClientId, amount: Amount): (d: ReleasedDeposit)
    ensures d.id == id && d.client == client && d.amount == amount
  {
    Deposit(id, client, amount, Released)
  }

  /** Disputing a released deposit holds it and keeps its id, client and amount. */
  function DisputeDeposit(d: ReleasedDeposit): (h: HeldDeposit)
    ensures h.id == d.id && h.client == d.client && h.amount == d.amount
  {
    Deposit(d.id, d.client, d.amount, Held)
  }

  /** Resolving a held deposit releases it and keeps its id, client and amount. */
  function ResolveDeposit(h: HeldDeposit): (d: ReleasedDeposit)
    ensures d.id == h.id && d.client == h.client && d.amount == h.amount
  {
    Deposit(h.id, h.client, h.amount, Released)
  }

  /** Dispute and resolve undo each other. */
  lemma DisputeResolveRoundTrip(d: ReleasedDeposit, h: HeldDeposit)
    ensures ResolveDeposit(DisputeDeposit(d)) == d
    ensures DisputeDeposit(ResolveDeposit(h)) == h
  {
  }

  function DepositAmount(d: Deposit): nat
  {
    d.amount
  }

  function WithdrawalAmount(w: Withdrawal): nat
  {
    w.amount
  }

  // ---------------------------------------------------------------------------
  // The account.

  datatype AccountValue = AccountValue(
    id: ClientId,
    available: int,
    held: int,
    deposits: map<TxId, ReleasedDeposit>,
    heldDeposits: map<TxId, HeldDeposit>,
    withdrawals: map<TxId, Withdrawal>)

  function TotalOf(a: AccountValue): int
  {
    a.available + a.held
  }

  /**
   * Both balances are non-negative and their total is representable; every
   * stored transaction is filed under its own id; no deposit is both released
   * and held; the held balance is the sum of the held deposits and the
   * available balance is the sum of the released deposits minus the sum of the
   * withdrawals.
   */
  ghost predicate Invariant(a: AccountValue)
  {
    && 0 <= a.available && 0 <= a.held && TotalOf(a) <= MAX
    && (forall k :: k in a.deposits ==> a.deposits[k].id == k)
    && (forall k :: k in a.heldDeposits ==> a.heldDeposits[k].id == k)
    && (forall k :: k in a.withdrawals ==> a.withdrawals[k].id == k)
    && a.deposits.Keys !! a.heldDeposits.Keys
    && a.held == Sum<Deposit>(a.heldDeposits, DepositAmount)
    && a.available == Sum<Deposit>(a.deposits, DepositAmount) - Sum<Withdrawal>(a.withdrawals, WithdrawalAmount)
  }

  /** A new active account: no money, no transactions. */
  function NewAccount(id: ClientId): (a: AccountValue)
    ensures a.id == id && Invariant(a)
    ensures a.available == 0 && a.held == 0
    ensures a.deposits == map[] && a.heldDeposits == map[] && a.withdrawals == map[]
  {
    SumEmpty<Deposit>(DepositAmount);
    SumEmpty<Withdrawal>(WithdrawalAmount);
    AccountValue(id, 0, 0, map[], map[], map[])
  }

  /** A negative amount is refused; every other amount passes. */
  function EnsureValidAmount(amount: Decimal): (r: TxResult)
    ensures r.Ok? <==> 0 <= amount
    ensures r.Err? ==> r.error == NegativeAmount
  {
    if amount < 0 then Err(NegativeAmount) else Ok
  }

  function DepositStep(a: AccountValue, id: TxId, client: ClientId, amount: Decimal): (r: (AccountValue, TxResult))
    ensures r.0.id == a.id && r.0.held == a.held && r.0.heldDeposits == a.heldDeposits
    ensures r.0.withdrawals == a.withdrawals
    ensures r.1.Err? ==> r.0 == a
  {
    if EnsureValidAmount(amount).Err? then (a, Err(NegativeAmount))
    else if id in a.heldDeposits || id in a.deposits then (a, Err(Duplicate))
    else if CheckedAdd(TotalOf(a), amount).None? then (a, Err(Overflow))
    else match CheckedAdd(a.available, amount)
      case Some(sum) => (a.(available := sum, deposits := a.deposits[id := NewDeposit(id, client, amount)]), Ok)
      case None => (a, Err(Overflow))
  }

  function WithdrawStep(a: AccountValue, id: TxId, client: ClientId, amount: Decimal): (r: (AccountValue, TxResult))
    ensures r.0.id == a.id && r.0.held == a.held && r.0.deposits == a.deposits
    ensures r.0.heldDeposits == a.heldDeposits
    ensures r.1.Err? ==> r.0 == a
  {
    if EnsureValidAmount(amount).Err? then (a, Err(NegativeAmount))
    else if amount > a.available then (a, Err(InsufficientFunds))
    else if id !in a.withdrawals then
      (a.(available := a.available - amount, withdrawals := a.withdrawals[id := Withdrawal(id, client, amount)]), Ok)
    else (a, Err(Duplicate))
  }

  /**
   * A dispute may only name a released deposit of the account: one that is
   * already held is in dispute, and any other id is not a deposit of it.
   */
  function DepositRef(a: AccountValue, id: TxId): (r: TxResult)
    ensures r.Ok? <==> id in a.deposits
    ensures r == Err(DepositAlreadyInDispute) <==> id !in a.deposits && id in a.heldDeposits
    ensures r == Err(InvalidDepositRef) <==> id !in a.deposits && id !in a.heldDeposits
  {
    if id in a.deposits then Ok
    else if id in a.heldDeposits then Err(DepositAlreadyInDispute)
    else Err(InvalidDepositRef)
  }

  lemma DepositKeepsInvariant(a: AccountValue, d: ReleasedDeposit)
    requires Invariant(a) && d.id !in a.deposits && d.id !in a.heldDeposits
    requires TotalOf(a) + d.amount <= MAX
    ensures Invariant(a.(available := a.available + d.amount, deposits := a.deposits[d.id := d]))
  {
    SumInsert<Deposit>(a.deposits, DepositAmount, d.id, d);
  }

  lemma WithdrawKeepsInvariant(a: AccountValue, w: Withdrawal)
    requires Invariant(a) && w.id !in a.withdrawals && w.amount <= a.available
    ensures Invariant(a.(available := a.available - w.amount, withdrawals := a.withdrawals[w.id := w]))
  {
    SumInsert<Withdrawal>(a.withdrawals, WithdrawalAmount, w.id, w);
  }

  /**
   * A deposit is refused with NegativeAmount exactly when its amount is
   * negative, then with Duplicate exactly when its id is a released or held
   * deposit of the account, then with Overflow exactly when the new total would
   * not be representable; the second overflow check, on the available balance
   * alone, never fires, so a deposit that passes these three checks succeeds. A refusal changes nothing; a success credits the
   * available balance and files a released deposit. The invariant is kept.
   */
  lemma DepositStepCorrect(a: AccountValue, id: TxId, client: ClientId, amount: Decimal)
    requires Invariant(a)
    ensures var (a', r) := DepositStep(a, id, client, amount);
      && Invariant(a') && a'.id == a.id
      && (r == Err(NegativeAmount) <==> amount < 0)
      && (r == Err(Duplicate) <==> 0 <= amount && (id in a.deposits || id in a.heldDeposits))
      && (r == Err(Overflow) <==> 0 <= amount && id !in a.deposits && id !in a.heldDeposits
                                  && TotalOf(a) + amount > MAX)
      && (r.Ok? <==> 0 <= amount && id !in a.deposits && id !in a.heldDeposits
                     && TotalOf(a) + amount <= MAX)
      && (r.Err? ==> a' == a)
      && (r.Ok? ==> && a'.available == a.available + amount && a'.held == a.held
                    && a'.deposits == a.deposits[id := NewDeposit(id, client, amount)]
                    && a'.heldDeposits == a.heldDeposits && a'.withdrawals == a.withdrawals)
  {
    if 0 <= amount && id !in a.deposits && id !in a.heldDeposits && TotalOf(a) + amount <= MAX {
      DepositKeepsInvariant(a, NewDeposit(id, client, amount));
    }
  }

  /**
   * A withdrawal is refused with NegativeAmount exactly when its amount is
   * negative, then with InsufficientFunds exactly when it asks for more than is
   * available, then with Duplicate exactly when its id is already a withdrawal
   * of the account: a deposit id is not checked. A refusal changes nothing; a
   * success debits the available balance and files the withdrawal.
   */
  lemma WithdrawStepCorrect(a: AccountValue, id: TxId, client: ClientId, amount: Decimal)
    requires Invariant(a)
    ensures var (a', r) := WithdrawStep(a, id, client, amount);
      && Invariant(a') && a'.id == a.id
      && (r == Err(NegativeAmount) <==> amount < 0)
      && (r == Err(InsufficientFunds) <==> 0 <= amount && amount > a.available)
      && (r == Err(Duplicate) <==> 0 <= amount <= a.available && id in a.withdrawals)
      && (r.Ok? || r == Err(NegativeAmount) || r == Err(InsufficientFunds) || r == Err(Duplicate))
      && (r.Err? ==> a' == a)
      && (r.Ok? ==> && a'.available == a.available - amount && a'.held == a.held
                    && a'.withdrawals == a.withdrawals[id := Withdrawal(id, client, amount)]
                    && a'.deposits == a.deposits && a'.heldDeposits == a.heldDeposits)
  {
    if 0 <= amount <= a.available && id !in a.withdrawals {
      WithdrawKeepsInvariant(a, Withdrawal(id, client, amount));
    }
  }

  /** The account's fields, updated in place. */
  class Account {
    const id: ClientId
    var available: Decimal
    var held: Decimal
    var deposits: map<TxId, ReleasedDeposit>
    var heldDeposits: map<TxId, HeldDeposit>
    var withdrawals: map<TxId, Withdrawal>

    function State(): AccountValue
      reads this
    {
      AccountValue(id, available, held, deposits, heldDeposits, withdrawals)
    }

    ghost predicate Valid()
      reads this
    {
      Invariant(State())
    }

    constructor (id: ClientId)
      ensures Valid() && State() == NewAccount(id)
    {
      this.id := id;
      available, held := 0, 0;
      deposits, heldDeposits, withdrawals := map[], map[], map[];
    }

    /** The total balance: never negative and always representable. */
    function Total(): (t: Decimal)
      reads this
      requires Valid()
      ensures t == TotalOf(State()) && 0 <= t
    {
      available + held
    }

    method Deposit(txId: TxId, client: ClientId, amount: Decimal) returns (r: TxResult)
      requires Valid()
      modifies this
      ensures Valid()
      ensures (State(), r) == DepositStep(old(State()), txId, client, amount)
    {
      DepositStepCorrect(State(), txId, client, amount);
      r := EnsureValidAmount(amount);
      if r.Err? {
        return;
      }
      if txId in heldDeposits || txId in deposits {
        return Err(Duplicate);
      }
      if CheckedAdd(Total(), amount).None? {
        return Err(Overflow);
      }
      match CheckedAdd(available, amount) {
        case Some(sum) =>
          available := sum;
          deposits := deposits[txId := NewDeposit(txId, client, amount)];
          return Ok;
        case None =>
      }
      return Err(Overflow);
    }

    method Withdraw(txId: TxId, client: ClientId, amount: Decimal) returns (r: TxResult)
      requires Valid()
      modifies this
      ensures Valid()
      ensures (State(), r) == WithdrawStep(old(State()), txId, client, amount)
    {
      WithdrawStepCorrect(State(), txId, client, amount);
      r := EnsureValidAmount(amount);
      if r.Err? {
        return;
      }
      if amount > available {
        return Err(InsufficientFunds);
      } else if txId !in withdrawals {
        available := available - amount;
        withdrawals := withdrawals[txId := Withdrawal(txId, client, amount)];
        return Ok;
      } else {
        return Err(Duplicate);
      }
    }

    function EnsureValidDepositRef(txId: TxId): (r: TxResult)
      reads this
      ensures r == DepositRef(State(), txId)
    {
      if txId in deposits then Ok
      else if txId in heldDeposits then Err(DepositAlreadyInDispute)
      else Err(InvalidDepositRef)
    }
  }

  // ---------------------------------------------------------------------------
  // The database: active accounts, locked accounts and consumed ids.

  datatype DatabaseValue = DatabaseValue(
    active: map<ClientId, AccountValue>,
    locked: map<ClientId, AccountValue>,
    txIds: set<TxId>)

  function EmptyDatabase(): DatabaseValue
  {
    DatabaseValue(map[], map[], {})
  }

  /** Every active account is filed under its own client and keeps its invariant. */
  ghost predicate Consistent(s: DatabaseValue)
  {
    forall c :: c in s.active ==> s.active[c].id == c && Invariant(s.active[c])
  }

  /** The client's active account, or the new account a first deposit would open. */
  function AccountOf(s: DatabaseValue, client: ClientId): AccountValue
  {
    if client in s.active then s.active[client] else NewAccount(client)
  }

  function DepositTx(s: DatabaseValue, id: TxId, client: ClientId, amount: Decimal): (r: (DatabaseValue, TxResult))
    ensures r.0.txIds == s.txIds && r.0.locked == s.locked
    ensures r.0.active.Keys <= s.active.Keys + {client}
    ensures r.1.Err? ==> r.0 == s
  {
    if id in s.txIds then (s, Err(Duplicate))
    else if client in s.locked then (s, Err(AccessLocked))
    else if client in s.active then
      var (a', r) := DepositStep(s.active[client], id, client, amount);
      (s.(active := s.active[client := a']), r)
    else
      // A new account is kept only if the deposit into it succeeds.
      var (a', r) := DepositStep(NewAccount(client), id, client, amount);
      if r.Err? then (s, r) else (s.(active := s.active[client := a']), Ok)
  }

  function WithdrawTx(s: DatabaseValue, id: TxId, client: ClientId, amount: Decimal): (r: (DatabaseValue, TxResult))
    ensures r.0.txIds == s.txIds && r.0.locked == s.locked && r.0.active.Keys == s.active.Keys
    ensures r.1.Err? ==> r.0 == s
  {
    if id in s.txIds then (s, Err(Duplicate))
    else if client in s.locked then (s, Err(AccessLocked))
    else if client in s.active then
      var (a', r) := WithdrawStep(s.active[client], id, client, amount);
      (s.(active := s.active[client := a']), r)
    else (s, Err(AccessUnavailable))
  }

  function DisputeTx(s: DatabaseValue, id: TxId, client: ClientId): (r: TxResult)
    ensures r.Ok? ==> client !in s.locked && client in s.active && id in s.active[client].deposits
  {
    if client in s.locked then Err(AccessLocked)
    else if client in s.active then DepositRef(s.active[client], id)
    else Err(AccessUnavailable)
  }

  /**
   * A deposit is refused with Duplicate when its id is consumed, then with
   * AccessLocked when the client is locked; otherwise the outcome is the
   * account's, on the client's active account or on a new one. A refusal
   * changes nothing, so a failed first deposit opens no account; a success
   * replaces the client's account only. The consumed ids and the locked
   * accounts never change, and consistency is kept.
   */
  lemma DepositTxCorrect(s: DatabaseValue, id: TxId, client: ClientId, amount: Decimal)
    requires Consistent(s)
    ensures var (s', r) := DepositTx(s, id, client, amount);
      && Consistent(s') && s'.txIds == s.txIds && s'.locked == s.locked
      && (id in s.txIds ==> r == Err(Duplicate))
      && (id !in s.txIds && client in s.locked ==> r == Err(AccessLocked))
      && (id !in s.txIds && client !in s.locked ==>
            r == DepositStep(AccountOf(s, client), id, client, amount).1)
      && (r.Err? ==> s' == s)
      && (r.Ok? ==> s'.active == s.active[client := DepositStep(AccountOf(s, client), id, client, amount).0])
  {
    if id !in s.txIds && client !in s.locked {
      var a := AccountOf(s, client);
      DepositStepCorrect(a, id, client, amount);
      var (a', r) := DepositStep(a, id, client, amount);
      if r.Err? && client in s.active {
        assert s.active[client := a'] == s.active;
      }
    }
  }

  /**
   * A withdrawal is refused with Duplicate when its id is consumed, then with
   * AccessLocked when the client is locked, then with AccessUnavailable when
   * the client has no active account; otherwise the outcome is the account's.
   * A refusal changes nothing; the consumed ids and the locked accounts never
   * change, and consistency is kept.
   */
  lemma WithdrawTxCorrect(s: DatabaseValue, id: TxId, client: ClientId, amount: Decimal)
    requires Consistent(s)
    ensures var (s', r) := WithdrawTx(s, id, client, amount);
      && Consistent(s') && s'.txIds == s.txIds && s'.locked == s.locked
      && (id in s.txIds ==> r == Err(Duplicate))
      && (id !in s.txIds && client in s.locked ==> r == Err(AccessLocked))
      && (id !in s.txIds && client !in s.locked && client !in s.active ==> r == Err(AccessUnavailable))
      && (id !in s.txIds && client !in s.locked && client in s.active ==>
            && r == WithdrawStep(s.active[client], id, client, amount).1
            && s'.active == s.active[client := WithdrawStep(s.active[client], id, client, amount).0])
      && (r.Err? ==> s' == s)
  {
    if id !in s.txIds && client !in s.locked && client in s.active {
      var a := s.active[client];
      WithdrawStepCorrect(a, id, client, amount);
      var (a', r) := WithdrawStep(a, id, client, amount);
      if r.Err? {
        assert s.active[client := a'] == s.active;
      }
    }
  }

  /**
   * A dispute is refused with AccessLocked when the client is locked, then with
   * AccessUnavailable when the client has no active account; otherwise it
   * has the outcome of the account's deposit-reference check: it succeeds
   * exactly when it names a released deposit of the account, is refused with
   * DepositAlreadyInDispute for a held one and with InvalidDepositRef for any
   * other id. Unlike a deposit or withdrawal, it does not look at the consumed
   * ids.
   */
  lemma DisputeTxCorrect(s: DatabaseValue, id: TxId, client: ClientId)
    ensures var r := DisputeTx(s, id, client);
      && (r == Err(AccessLocked) <==> client in s.locked)
      && (r == Err(AccessUnavailable) <==> client !in s.locked && client !in s.active)
      && (r.Ok? <==> client !in s.locked && client in s.active && id in s.active[client].deposits)
      && (r == Err(DepositAlreadyInDispute) <==>
            client !in s.locked && client in s.active
            && id !in s.active[client].deposits && id in s.active[client].heldDeposits)
      && (r == Err(InvalidDepositRef) <==>
            client !in s.locked && client in s.active
            && id !in s.active[client].deposits && id !in s.active[client].heldDeposits)
      && (client !in s.locked && client in s.active ==> r == DepositRef(s.active[client], id))
  {
  }

  /**
   * The draft never records a consumed id: after a deposit is accepted, a
   * withdrawal for the same client and the same id, of at most the deposited
   * amount, is accepted as well, where the current engine refuses it as a
   * Duplicate.
   */
  lemma IdReusedAfterDeposit(id: TxId, client: ClientId, x: Amount, y: Amount)
    requires y <= x
    ensures var (s1, r1) := DepositTx(EmptyDatabase(), id, client, x);
      && r1.Ok? && id !in s1.txIds
      && WithdrawTx(s1, id, client, y).1.Ok?
  {
    var s0 := EmptyDatabase();
    DepositTxCorrect(s0, id, client, x);
    DepositStepCorrect(NewAccount(client), id, client, x);
    var s1 := DepositTx(s0, id, client, x).0;
    assert s1.active[client].available == x;
    WithdrawTxCorrect(s1, id, client, y);
    WithdrawStepCorrect(s1.active[client], id, client, y);
  }

  /** The database's fields, updated in place; it owns its accounts by value. */
  class Database {
    var active: map<ClientId, AccountValue>
    var locked: map<ClientId, AccountValue>
    var txIds: set<TxId>

    function State(): DatabaseValue
      reads this
    {
      DatabaseValue(active, locked, txIds)
    }

    ghost predicate Valid()
      reads this
    {
      Consistent(State())
    }

    constructor ()
      ensures Valid() && State() == EmptyDatabase()
    {
      active, locked, txIds := map[], map[], {};
    }

    /** Refuses an id that was already consumed. */
    function EnsureTxidAvailable(id: TxId): (r: TxResult)
      reads this
      ensures r.Ok? <==> id !in txIds
      ensures r.Err? ==> r.error == Duplicate
    {
      if id in txIds then Err(Duplicate) else Ok
    }

    /** Refuses a client whose account is locked. */
    function EnsureAccountNotLocked(client: ClientId): (r: TxResult)
      reads this
      ensures r.Ok? <==> client !in locked
      ensures r.Err? ==> r.error == AccessLocked
    {
      if client in locked then Err(AccessLocked) else Ok
    }

    method Deposit(id: TxId, client: ClientId, amount: Decimal) returns (r: TxResult)
      requires Valid()
      modifies this
      ensures Valid()
      ensures (State(), r) == DepositTx(old(State()), id, client, amount)
    {
      DepositTxCorrect(State(), id, client, amount);
      r := EnsureTxidAvailable(id);
      if r.Err? {
        return;
      }
      r := EnsureAccountNotLocked(client);
      if r.Err? {
        return;
      }
      if client in active {
        var (account, res) := DepositStep(active[client], id, client, amount);
        active := active[client := account];
        return res;
      } else {
        var (account, res) := DepositStep(NewAccount(client), id, client, amount);
        if res.Err? {
          return res;
        }
        active := active[client := account];
        return Ok;
      }
    }

    method Withdraw(id: TxId, client: ClientId, amount: Decimal) returns (r: TxResult)
      requires Valid()
      modifies this
      ensures Valid()
      ensures (State(), r) == WithdrawTx(old(State()), id, client, amount)
    {
      WithdrawTxCorrect(State(), id, client, amount);
      r := EnsureTxidAvailable(id);
      if r.Err? {
        return;
      }
      r := EnsureAccountNotLocked(client);
      if r.Err? {
        return;
      }
      if client in active {
        var (account, res) := WithdrawStep(active[client], id, client, amount);
        active := active[client := account];
        return res;
      } else {
        return Err(AccessUnavailable);
      }
    }

    /** Checks the reference only: the draft's account-level dispute goes no further. */
    method Dispute(id: TxId, client: ClientId) returns (r: TxResult)
      ensures r == DisputeTx(State(), id, client)
    {
      r := EnsureAccountNotLocked(client);
      if r.Err? {
        return;
      }
      if client in active {
        return DepositRef(active[client], id);
      } else {
        return Err(AccessUnavailable);
      }
    }
  }
}
