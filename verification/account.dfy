/**
 * A client's account (src/account.rs).
 *
 * The account holds an available and a held balance and three indices keyed by
 * transaction id: the released deposits, the withdrawals and the held
 * (disputed) deposits. The source updates these fields in place; the class
 * Account below does the same, and each of its methods is specified by a pure
 * step function on AccountState, the value of the account's fields. The
 * lemmas about the step functions carry the properties: what each operation
 * does, that it fails without changing anything, and that it keeps the
 * account invariant.
 *
 * Resolve and chargeback do not exist on the source's account; ResolveStep,
 * ChargebackStep and the methods Resolve and Chargeback are reconstructed from
 * the documented contracts of src/resolve.rs and src/chargeback.rs and from
 * the deposit transitions Release and Reverse.
 */
module Accounts {
  import opened Ids
  import opened Decimals
  import opened Options
  import opened Errors
  import opened Deposits
  import Withdraws
  import Disputes
  import Resolves
  import Chargebacks
  import opened Sums

  datatype AccountState = AccountState(
    id: ClientId,
    available: int,
    held: int,
    deposits: map<TxId, ReleasedDeposit>,
    withdraws: map<TxId, Withdraws.Withdraw>,
    depositsHeld: map<TxId, HeldDeposit>)

  function TotalOf(a: AccountState): int
  {
    a.available + a.held
  }

  /** Every transaction id the account has recorded. */
  function TxIdsOf(a: AccountState): set<TxId>
  {
    a.deposits.Keys + a.withdraws.Keys + a.depositsHeld.Keys
  }

  /**
   * The account invariant: both balances are non-negative and their total is
   * representable; every stored transaction is filed under its own id and
   * belongs to this client; a deposit is either released or held, never both,
   * and no withdrawal shares an id with a deposit; the held balance is the sum
   * of the held deposits, and the available balance is the sum of the released
   * deposits minus the sum of the withdrawals.
   */
  ghost predicate Invariant(a: AccountState)
  {
    Bounded(a) && Filed(a) && Balanced(a)
  }

  predicate Bounded(a: AccountState)
  {
    0 <= a.available && 0 <= a.held && TotalOf(a) <= MAX
  }

  predicate Filed(a: AccountState)
  {
    && (forall k :: k in a.deposits ==> a.deposits[k].id == k && a.deposits[k].client == a.id)
    && (forall k :: k in a.depositsHeld ==> a.depositsHeld[k].id == k && a.depositsHeld[k].client == a.id)
    && (forall k :: k in a.withdraws ==> a.withdraws[k].id == k && a.withdraws[k].client == a.id)
    && a.deposits.Keys !! a.depositsHeld.Keys
    && a.withdraws.Keys !! (a.deposits.Keys + a.depositsHeld.Keys)
  }

  ghost predicate Balanced(a: AccountState)
  {
    && a.held == HeldSum(a.depositsHeld)
    && a.available == ReleasedSum(a.deposits) - WithdrawnSum(a.withdraws)
  }

  ghost function HeldSum(m: map<TxId, HeldDeposit>): nat
  {
    Sum<Deposit>(m, AmountOf)
  }

  ghost function ReleasedSum(m: map<TxId, ReleasedDeposit>): nat
  {
    Sum<Deposit>(m, AmountOf)
  }

  ghost function WithdrawnSum(m: map<TxId, Withdraws.Withdraw>): nat
  {
    Sum<Withdraws.Withdraw>(m, Withdraws.AmountOf)
  }

  /** A new account: no money, no transactions. */
  function NewAccount(id: ClientId): (a: AccountState)
    ensures a.id == id && Invariant(a)
    ensures a.available == 0 && a.held == 0 && TotalOf(a) == 0 && TxIdsOf(a) == {}
  {
    SumEmpty<Deposit>(AmountOf);
    SumEmpty<Withdraws.Withdraw>(Withdraws.AmountOf);
    AccountState(id, 0, 0, map[], map[], map[])
  }

  // ---------------------------------------------------------------------------
  // The operations, as functions from the old account to the new one and the
  // result. Each requires the record to belong to this account: the source
  // asserts it and panics otherwise.

  function DepositStep(a: AccountState, d: ReleasedDeposit): (r: (AccountState, TxResult))
    requires d.client == a.id
    ensures r.0.id == a.id && r.0.depositsHeld == a.depositsHeld && r.0.withdraws == a.withdraws
    ensures r.1.Err? ==> r.0 == a
  {
    if CheckedAdd(TotalOf(a), d.amount).None? then (a, Err(Overflow))
    else match CheckedAdd(a.available, d.amount)
      case Some(sum) => (a.(available := sum, deposits := a.deposits[d.id := d]), Ok(()))
      case None => (a, Err(Overflow))
  }

  function WithdrawStep(a: AccountState, w: Withdraws.Withdraw): (r: (AccountState, TxResult))
    requires w.client == a.id
    ensures r.0.id == a.id && r.0.held == a.held && r.0.deposits == a.deposits && r.0.depositsHeld == a.depositsHeld
    ensures r.1.Err? ==> r.0 == a
  {
    if w.amount > a.available then (a, Err(Insufficient))
    else (a.(withdraws := a.withdraws[w.id := w], available := a.available - w.amount), Ok(()))
  }

  function DisputeStep(a: AccountState, tx: Disputes.Dispute): (r: (AccountState, TxResult))
    requires tx.client == a.id
    ensures r.0.id == a.id && r.0.withdraws == a.withdraws && TotalOf(r.0) == TotalOf(a)
    ensures r.1.Err? ==> r.0 == a
  {
    if tx.id !in a.deposits then (a, Err(MissingTxForClient))
    else
      var d := a.deposits[tx.id];
      if d.amount > a.available then (a, Err(Insufficient))
      else
        (a.(available := a.available - d.amount,
            held := a.held + d.amount,
            deposits := a.deposits - {tx.id},
            depositsHeld := a.depositsHeld[tx.id := Hold(d)]),
         Ok(()))
  }

  function ResolveStep(a: AccountState, tx: Resolves.Resolve): (r: (AccountState, TxResult))
    requires tx.client == a.id
    ensures r.0.id == a.id && r.0.withdraws == a.withdraws && TotalOf(r.0) == TotalOf(a)
    ensures r.1.Err? ==> r.0 == a
  {
    if tx.id !in a.depositsHeld then (a, Err(MissingTxForClient))
    else
      var d := a.depositsHeld[tx.id];
      (a.(available := a.available + d.amount,
          held := a.held - d.amount,
          depositsHeld := a.depositsHeld - {tx.id},
          deposits := a.deposits[tx.id := Release(d)]),
       Ok(()))
  }

  function ChargebackStep(a: AccountState, tx: Chargebacks.Chargeback): (r: (AccountState, TxResult))
    requires tx.client == a.id
    ensures r.0.id == a.id && r.0.available == a.available && r.0.deposits == a.deposits
    ensures r.0.withdraws == a.withdraws
    ensures r.1.Err? ==> r.0 == a
  {
    if tx.id !in a.depositsHeld then (a, Err(MissingTxForClient))
    else
      var d := a.depositsHeld[tx.id];
      var reversed := Reverse(d);  // the reversed deposit is not kept anywhere
      (a.(held := a.held - reversed.amount, depositsHeld := a.depositsHeld - {tx.id}), Ok(()))
  }

  // ---------------------------------------------------------------------------
  // The invariant is kept by each successful operation. Each lemma names the
  // new account explicitly, so that the proof only has to follow the sums.

  lemma DepositKeepsInvariant(a: AccountState, d: ReleasedDeposit)
    requires Invariant(a) && d.client == a.id && d.id !in TxIdsOf(a)
    requires TotalOf(a) + d.amount <= MAX
    ensures Invariant(a.(available := a.available + d.amount, deposits := a.deposits[d.id := d]))
  {
    var a' := a.(available := a.available + d.amount, deposits := a.deposits[d.id := d]);
    SumInsert<Deposit>(a.deposits, AmountOf, d.id, d);
  }

  lemma WithdrawKeepsInvariant(a: AccountState, w: Withdraws.Withdraw)
    requires Invariant(a) && w.client == a.id && w.id !in TxIdsOf(a)
    requires w.amount <= a.available
    ensures Invariant(a.(withdraws := a.withdraws[w.id := w], available := a.available - w.amount))
  {
    var a' := a.(withdraws := a.withdraws[w.id := w], available := a.available - w.amount);
    SumInsert<Withdraws.Withdraw>(a.withdraws, Withdraws.AmountOf, w.id, w);
  }

  lemma DisputeKeepsInvariant(a: AccountState, id: TxId)
    requires Invariant(a) && id in a.deposits && a.deposits[id].amount <= a.available
    ensures var d := a.deposits[id];
      Invariant(a.(available := a.available - d.amount, held := a.held + d.amount,
                   deposits := a.deposits - {id}, depositsHeld := a.depositsHeld[id := Hold(d)]))
  {
    var d := a.deposits[id];
    var a' := a.(available := a.available - d.amount, held := a.held + d.amount,
                 deposits := a.deposits - {id}, depositsHeld := a.depositsHeld[id := Hold(d)]);
    assert id !in a.depositsHeld;
    assert Filed(a');
    SumRemove<Deposit>(a.deposits, AmountOf, id);
    SumInsert<Deposit>(a.depositsHeld, AmountOf, id, Hold(d));
    assert Balanced(a');
  }

  /** The outcome of a dispute that passes both checks. */
  lemma DisputeSucceeds(a: AccountState, tx: Disputes.Dispute)
    requires Invariant(a) && tx.client == a.id
    requires tx.id in a.deposits && a.deposits[tx.id].amount <= a.available
    ensures var d := a.deposits[tx.id];
      var a' := a.(available := a.available - d.amount, held := a.held + d.amount,
                   deposits := a.deposits - {tx.id}, depositsHeld := a.depositsHeld[tx.id := Hold(d)]);
      DisputeStep(a, tx) == (a', Ok(())) && Invariant(a')
  {
    DisputeKeepsInvariant(a, tx.id);
  }

  /** The outcome of a resolve of a held deposit. */
  lemma ResolveSucceeds(a: AccountState, tx: Resolves.Resolve)
    requires Invariant(a) && tx.client == a.id && tx.id in a.depositsHeld
    ensures var d := a.depositsHeld[tx.id];
      var a' := a.(available := a.available + d.amount, held := a.held - d.amount,
                   depositsHeld := a.depositsHeld - {tx.id}, deposits := a.deposits[tx.id := Release(d)]);
      && d.amount <= a.held && a.available + d.amount <= MAX
      && ResolveStep(a, tx) == (a', Ok(())) && Invariant(a')
  {
    HeldAmountAtMostHeld(a, tx.id);
    ResolveKeepsInvariant(a, tx.id);
  }

  /** A held deposit's amount is part of the held balance. */
  lemma HeldAmountAtMostHeld(a: AccountState, id: TxId)
    requires Invariant(a) && id in a.depositsHeld
    ensures a.depositsHeld[id].amount <= a.held
  {
    EntryAtMostSum<Deposit>(a.depositsHeld, AmountOf, id);
  }

  lemma ResolveKeepsInvariant(a: AccountState, id: TxId)
    requires Invariant(a) && id in a.depositsHeld
    ensures var d := a.depositsHeld[id];
      Invariant(a.(available := a.available + d.amount, held := a.held - d.amount,
                   depositsHeld := a.depositsHeld - {id}, deposits := a.deposits[id := Release(d)]))
  {
    var d := a.depositsHeld[id];
    var a' := a.(available := a.available + d.amount, held := a.held - d.amount,
                 depositsHeld := a.depositsHeld - {id}, deposits := a.deposits[id := Release(d)]);
    assert id !in a.deposits;
    HeldAmountAtMostHeld(a, id);
    assert Filed(a');
    SumRemove<Deposit>(a.depositsHeld, AmountOf, id);
    SumInsert<Deposit>(a.deposits, AmountOf, id, Release(d));
    assert Balanced(a');
  }

  lemma ChargebackKeepsInvariant(a: AccountState, id: TxId)
    requires Invariant(a) && id in a.depositsHeld
    ensures var d := a.depositsHeld[id];
      Invariant(a.(held := a.held - d.amount, depositsHeld := a.depositsHeld - {id}))
  {
    var d := a.depositsHeld[id];
    var a' := a.(held := a.held - d.amount, depositsHeld := a.depositsHeld - {id});
    HeldAmountAtMostHeld(a, id);
    SumRemove<Deposit>(a.depositsHeld, AmountOf, id);
  }

  // ---------------------------------------------------------------------------
  // What the operations do.

  /**
   * A deposit fails with Overflow, changing nothing, exactly when the new total
   * would not be representable; otherwise it credits the available balance and
   * files the deposit as released. The invariant is kept.
   */
  lemma DepositCorrect(a: AccountState, d: ReleasedDeposit)
    requires Invariant(a) && d.client == a.id && d.id !in TxIdsOf(a)
    ensures var (a', r) := DepositStep(a, d);
      && Invariant(a') && a'.id == a.id
      && (r.Err? <==> TotalOf(a) + d.amount > MAX)
      && (r.Err? ==> r.error == Overflow && a' == a)
      && (r.Ok? ==> && a'.available == a.available + d.amount && a'.held == a.held
                    && TotalOf(a') == TotalOf(a) + d.amount
                    && a'.deposits == a.deposits[d.id := d]
                    && a'.withdraws == a.withdraws && a'.depositsHeld == a.depositsHeld
                    && TxIdsOf(a') == TxIdsOf(a) + {d.id})
  {
    if TotalOf(a) + d.amount <= MAX {
      DepositKeepsInvariant(a, d);
    }
  }

  /**
   * A withdrawal fails with Insufficient, changing nothing, exactly when it asks
   * for more than is available; otherwise it debits the available balance,
   * which stays non-negative, and records the withdrawal. The invariant is kept.
   */
  lemma WithdrawCorrect(a: AccountState, w: Withdraws.Withdraw)
    requires Invariant(a) && w.client == a.id && w.id !in TxIdsOf(a)
    ensures var (a', r) := WithdrawStep(a, w);
      && Invariant(a') && a'.id == a.id
      && (r.Err? <==> w.amount > a.available)
      && (r.Err? ==> r.error == Insufficient && a' == a)
      && (r.Ok? ==> && a'.available == a.available - w.amount && 0 <= a'.available
                    && a'.held == a.held && TotalOf(a') == TotalOf(a) - w.amount
                    && a'.withdraws == a.withdraws[w.id := w]
                    && a'.deposits == a.deposits && a'.depositsHeld == a.depositsHeld
                    && TxIdsOf(a') == TxIdsOf(a) + {w.id})
  {
    if w.amount <= a.available {
      WithdrawKeepsInvariant(a, w);
    }
  }

  /**
   * A dispute fails with MissingTxForClient unless the id is a released deposit
   * of this account (an unknown id, a withdrawal and an already held deposit
   * all fail alike), and with Insufficient when that deposit's amount exceeds
   * the available balance; either failure changes nothing. Otherwise the
   * deposit moves from the released to the held index as Held, and its amount
   * moves from available to held: the total is unchanged and the held balance
   * cannot overflow. Nothing else in the account changes. The invariant is kept.
   */
  lemma DisputeCorrect(a: AccountState, tx: Disputes.Dispute)
    requires Invariant(a) && tx.client == a.id
    ensures var (a', r) := DisputeStep(a, tx);
      && Invariant(a') && a'.id == a.id && TxIdsOf(a') == TxIdsOf(a)
      && (r == Err(MissingTxForClient) <==> tx.id !in a.deposits)
      && (r == Err(Insufficient) <==> tx.id in a.deposits && a.deposits[tx.id].amount > a.available)
      && (r.Ok? || r == Err(MissingTxForClient) || r == Err(Insufficient))
      && (r.Err? ==> a' == a)
      && (r.Ok? ==> && tx.id !in a'.deposits && tx.id in a'.depositsHeld
                    && a'.depositsHeld[tx.id] == Hold(a.deposits[tx.id])
                    && a'.available == a.available - a.deposits[tx.id].amount
                    && a'.held == a.held + a.deposits[tx.id].amount
                    && a'.held <= MAX && TotalOf(a') == TotalOf(a)
                    && a' == a.(available := a.available - a.deposits[tx.id].amount,
                                held := a.held + a.deposits[tx.id].amount,
                                deposits := a.deposits - {tx.id},
                                depositsHeld := a.depositsHeld[tx.id := Hold(a.deposits[tx.id])]))
  {
    if tx.id in a.deposits && a.deposits[tx.id].amount <= a.available {
      DisputeKeepsInvariant(a, tx.id);
      assert tx.id !in a.depositsHeld;
    }
  }

  /**
   * A resolve fails with MissingTxForClient, changing nothing, unless the id is
   * a held deposit of this account. Otherwise the deposit moves back to the
   * released index as Released and its amount moves from held to available:
   * the amount is at most the held balance, the available balance cannot
   * overflow, and the total is unchanged. Nothing else in the account changes.
   * The invariant is kept.
   */
  lemma ResolveCorrect(a: AccountState, tx: Resolves.Resolve)
    requires Invariant(a) && tx.client == a.id
    ensures var (a', r) := ResolveStep(a, tx);
      && Invariant(a') && a'.id == a.id && TxIdsOf(a') == TxIdsOf(a)
      && (r.Err? <==> tx.id !in a.depositsHeld)
      && (r.Err? ==> r.error == MissingTxForClient && a' == a)
      && (r.Ok? ==> && a.depositsHeld[tx.id].amount <= a.held
                    && a.available + a.depositsHeld[tx.id].amount <= MAX
                    && tx.id !in a'.depositsHeld && tx.id in a'.deposits
                    && a'.deposits[tx.id] == Release(a.depositsHeld[tx.id])
                    && a'.available == a.available + a.depositsHeld[tx.id].amount
                    && a'.held == a.held - a.depositsHeld[tx.id].amount
                    && TotalOf(a') == TotalOf(a)
                    && a' == a.(available := a.available + a.depositsHeld[tx.id].amount,
                                held := a.held - a.depositsHeld[tx.id].amount,
                                depositsHeld := a.depositsHeld - {tx.id},
                                deposits := a.deposits[tx.id := Release(a.depositsHeld[tx.id])]))
  {
    if tx.id in a.depositsHeld {
      HeldAmountAtMostHeld(a, tx.id);
      ResolveKeepsInvariant(a, tx.id);
      assert tx.id !in a.deposits;
    }
  }

  /**
   * A chargeback fails with MissingTxForClient, changing nothing, unless the id
   * is a held deposit of this account. Otherwise the deposit leaves the account
   * and its amount leaves the held balance without being credited to the
   * available one: the amount is at most the held balance and the total drops
   * by exactly that amount. The invariant is kept.
   */
  lemma ChargebackCorrect(a: AccountState, tx: Chargebacks.Chargeback)
    requires Invariant(a) && tx.client == a.id
    ensures var (a', r) := ChargebackStep(a, tx);
      && Invariant(a') && a'.id == a.id && TxIdsOf(a') <= TxIdsOf(a)
      && (r.Err? <==> tx.id !in a.depositsHeld)
      && (r.Err? ==> r.error == MissingTxForClient && a' == a)
      && (r.Ok? ==> && a.depositsHeld[tx.id].amount <= a.held
                    && tx.id !in TxIdsOf(a')
                    && a' == a.(held := a.held - a.depositsHeld[tx.id].amount,
                                depositsHeld := a.depositsHeld - {tx.id})
                    && a'.available == a.available
                    && a'.held == a.held - a.depositsHeld[tx.id].amount
                    && TotalOf(a') == TotalOf(a) - a.depositsHeld[tx.id].amount)
  {
    if tx.id in a.depositsHeld {
      HeldAmountAtMostHeld(a, tx.id);
      ChargebackKeepsInvariant(a, tx.id);
    }
  }

  /** Disputing a deposit and then resolving it restores the account exactly. */
  lemma DisputeThenResolve(a: AccountState, id: TxId)
    requires Invariant(a) && DisputeStep(a, Disputes.Dispute(id, a.id)).1.Ok?
    ensures ResolveStep(DisputeStep(a, Disputes.Dispute(id, a.id)).0, Resolves.Resolve(id, a.id)) == (a, Ok(()))
  {
    var d := a.deposits[id];
    var a1 := DisputeStep(a, Disputes.Dispute(id, a.id)).0;
    assert id !in a.depositsHeld;
    assert a1.depositsHeld - {id} == a.depositsHeld;
    HoldThenRelease(d);
    assert a1.deposits[id := Release(Hold(d))] == a.deposits;
  }

  /**
   * Generalises the deposits_withdraws unit test (x = 5, y = 6): two deposits
   * of x and a withdrawal of y <= 2x leave 2x - y available, nothing held, and
   * a total of 2x - y.
   */
  lemma DepositsThenWithdraw(c: ClientId, x: Amount, y: Amount)
    requires y <= 2 * x && 2 * x <= MAX
    ensures var a0 := NewAccount(c);
      var (a1, r1) := DepositStep(a0, Deposit(1, c, x, DepositReleased));
      var (a2, r2) := DepositStep(a1, Deposit(2, c, x, DepositReleased));
      var (a3, r3) := WithdrawStep(a2, Withdraws.Withdraw(3, c, y));
      && r1.Ok? && TotalOf(a1) == x && a1.available == x && a1.held == 0
      && r2.Ok? && TotalOf(a2) == 2 * x && a2.available == 2 * x && a2.held == 0
      && r3.Ok? && TotalOf(a3) == 2 * x - y && a3.available == 2 * x - y && a3.held == 0
  {
  }

  // ---------------------------------------------------------------------------
  // The account as the source has it: fields updated in place.

  class Account {
    const id: ClientId
    var available: Decimal
    var held: Decimal
    var deposits: map<TxId, ReleasedDeposit>
    var withdraws: map<TxId, Withdraws.Withdraw>
    var depositsHeld: map<TxId, HeldDeposit>

    /** The value of the account's fields. */
    function State(): AccountState
      reads this
    {
      AccountState(id, available, held, deposits, withdraws, depositsHeld)
    }

    ghost predicate Valid()
      reads this
    {
      Invariant(State())
    }

    constructor (id: ClientId)
      ensures State() == NewAccount(id) && Valid()
    {
      this.id := id;
      available, held := 0, 0;
      deposits, withdraws, depositsHeld := map[], map[], map[];
    }

    /** The total balance: never negative, and never beyond the representable range. */
    function Total(): (t: Decimal)
      reads this
      requires Valid()
      ensures t == TotalOf(State()) && 0 <= t
    {
      available + held
    }

    /** The database guarantees that the id is not already recorded. */
    method Deposit(tx: ReleasedDeposit) returns (r: TxResult)
      requires Valid() && tx.client == id && tx.id !in TxIdsOf(State())
      modifies this
      ensures Valid()
      ensures (State(), r) == DepositStep(old(State()), tx)
    {
      DepositCorrect(State(), tx);
      if CheckedAdd(Total(), tx.amount).None? {
        return Err(Overflow);
      }
      match CheckedAdd(available, tx.amount) {
        case Some(sum) =>
          available := sum;
          deposits := deposits[tx.id := tx];
          return Ok(());
        case None =>
      }
      return Err(Overflow);
    }

    /** The database guarantees that the id is not already recorded. */
    method Withdraw(tx: Withdraws.Withdraw) returns (r: TxResult)
      requires Valid() && tx.client == id && tx.id !in TxIdsOf(State())
      modifies this
      ensures Valid()
      ensures (State(), r) == WithdrawStep(old(State()), tx)
    {
      WithdrawCorrect(State(), tx);
      if tx.amount > available {
        return Err(Insufficient);
      }
      withdraws := withdraws[tx.id := tx];
      available := available - tx.amount;
      return Ok(());
    }

    /** Takes the deposit out first and puts it back if the dispute fails. */
    method Dispute(tx: Disputes.Dispute) returns (r: TxResult)
      requires Valid() && tx.client == id
      modifies this
      ensures Valid()
      ensures (State(), r) == DisputeStep(old(State()), tx)
    {
      ghost var a := State();
      var txId := tx.id;
      if txId !in deposits {
        assert DisputeStep(a, tx) == (a, Err(MissingTxForClient));
        return Err(MissingTxForClient);
      }
      var deposit := deposits[txId];
      deposits := deposits - {txId};
      // The source asserts this at run time; the invariant guarantees it.
      assert txId !in depositsHeld;
      if deposit.amount > available {
        deposits := deposits[txId := deposit];
        assert deposits == a.deposits;
        assert State() == a;
        assert DisputeStep(a, tx) == (a, Err(Insufficient));
        return Err(Insufficient);
      }
      DisputeSucceeds(a, tx);
      ghost var a' := DisputeStep(a, tx).0;
      available := available - deposit.amount;
      held := held + deposit.amount;
      depositsHeld := depositsHeld[txId := Hold(deposit)];
      assert State() == a';
      return Ok(());
    }

    /** Reconstructed: the source's account has no resolve operation. */
    method Resolve(tx: Resolves.Resolve) returns (r: TxResult)
      requires Valid() && tx.client == id
      modifies this
      ensures Valid()
      ensures (State(), r) == ResolveStep(old(State()), tx)
    {
      ghost var a := State();
      var txId := tx.id;
      if txId !in depositsHeld {
        assert ResolveStep(a, tx) == (a, Err(MissingTxForClient));
        return Err(MissingTxForClient);
      }
      var deposit := depositsHeld[txId];
      ResolveSucceeds(a, tx);
      ghost var a' := ResolveStep(a, tx).0;
      depositsHeld := depositsHeld - {txId};
      held := held - deposit.amount;
      available := available + deposit.amount;
      deposits := deposits[txId := Release(deposit)];
      assert State() == a';
      return Ok(());
    }

    /** Reconstructed: the source's account has no chargeback operation. */
    method Chargeback(tx: Chargebacks.Chargeback) returns (r: TxResult)
      requires Valid() && tx.client == id
      modifies this
      ensures Valid()
      ensures (State(), r) == ChargebackStep(old(State()), tx)
    {
      var txId := tx.id;
      if txId !in depositsHeld {
        return Err(MissingTxForClient);
      }
      var deposit := depositsHeld[txId];
      ChargebackKeepsInvariant(State(), txId);
      HeldAmountAtMostHeld(State(), txId);
      depositsHeld := depositsHeld - {txId};
      var reversed := Reverse(deposit);
      held := held - reversed.amount;
      return Ok(());
    }
  }
}
