/**
 * Input records (src/tx.rs): the kind of transaction, the raw client and
 * transaction numbers, and an optional amount.
 */
module Txs {
  import opened Ids
  import opened Options
  import opened Decimals

  datatype TxType = Deposit | Withdrawal | Dispute | Resolve | Chargeback

  datatype Tx = Tx(typ: TxType, client: Uint16, tx: Uint32, amount: Option<Decimal>)

  /** Deposits and withdrawals move money and must name an amount; the other kinds must not. */
  predicate NeedsAmount(t: TxType)
  {
    t == Deposit || t == Withdrawal
  }

  /** A record whose amount is present exactly when its kind needs one. */
  predicate WellFormed(r: Tx)
  {
    r.amount.Some? <==> NeedsAmount(r.typ)
  }

  function NewDeposit(tx: Uint32, client: Uint16, amount: Decimal): (r: Tx)
    ensures WellFormed(r) && r.typ == Deposit
    ensures r.tx == tx && r.client == client && r.amount == Some(amount)
  {
    Tx(Deposit, client, tx, Some(amount))
  }

  function NewWithdraw(tx: Uint32, client: Uint16, amount: Decimal): (r: Tx)
    ensures WellFormed(r) && r.typ == Withdrawal
    ensures r.tx == tx && r.client == client && r.amount == Some(amount)
  {
    Tx(Withdrawal, client, tx, Some(amount))
  }

  function NewDispute(tx: Uint32, client: Uint16): (r: Tx)
    ensures WellFormed(r) && r.typ == Dispute
    ensures r.tx == tx && r.client == client && r.amount == None
  {
    Tx(Dispute, client, tx, None)
  }

  function NewResolve(tx: Uint32, client: Uint16): (r: Tx)
    ensures WellFormed(r) && r.typ == Resolve
    ensures r.tx == tx && r.client == client && r.amount == None
  {
    Tx(Resolve, client, tx, None)
  }

  function NewChargeback(tx: Uint32, client: Uint16): (r: Tx)
    ensures WellFormed(r) && r.typ == Chargeback
    ensures r.tx == tx && r.client == client && r.amount == None
  {
    Tx(Chargeback, client, tx, None)
  }
}
