/**
 * Withdrawals (src/withdraw.rs): an immutable record with no lifecycle. It is
 * only ever built by New, which rejects negative amounts.
 */
module Withdraws {
  import opened Ids
  import opened Decimals
  import opened Errors

  datatype Withdraw = Withdraw(id: TxId, client: ClientId, amount: Amount)

  function New(id: TxId, client: ClientId, amount: Decimal): (r: Result<Withdraw>)
    ensures r.Err? <==> amount < 0
    ensures r.Err? ==> r.error == NegativeAmount
    ensures r.Ok? ==> r.value.id == id && r.value.client == client && r.value.amount == amount
  {
    if amount < 0 then Err(NegativeAmount) else Ok(Withdraw(id, client, amount))
  }

  /** What a withdrawal takes from a balance. */
  function AmountOf(w: Withdraw): nat
  {
    w.amount
  }
}
