/**
 * Deposits and their lifecycle (src/deposit.rs). A deposit is Released when it
 * is accepted, Held while it is disputed, and then either Released again
 * (resolved) or Reversed (charged back). The source encodes the state in the
 * type, so that an operation valid in one state cannot be called in another;
 * here the three subset types ReleasedDeposit, HeldDeposit and ReversedDeposit
 * play that role. A deposit is only ever built by New, which rejects negative
 * amounts, so its amount field has the non-negative type Amount.
 */
module Deposits {
  import opened Ids
  import opened Decimals
  import opened Errors

  datatype DepositState = DepositReleased | DepositHeld | DepositReversed

  datatype Deposit = Deposit(id: TxId, client: ClientId, amount: Amount, state: DepositState)

  type ReleasedDeposit = d: Deposit | d.state == DepositReleased
    witness Deposit(0, 0, 0, DepositReleased)

  type HeldDeposit = d: Deposit | d.state == DepositHeld
    witness Deposit(0, 0, 0, DepositHeld)

  type ReversedDeposit = d: Deposit | d.state == DepositReversed
    witness Deposit(0, 0, 0, DepositReversed)

  /** The lifecycle: Released -> Held, Held -> Released, Held -> Reversed, and nothing else. */
  predicate Transition(from: DepositState, to: DepositState)
  {
    || (from == DepositReleased && to == DepositHeld)
    || (from == DepositHeld && to == DepositReleased)
    || (from == DepositHeld && to == DepositReversed)
  }

  /** Two deposit values describe the same transaction: same id, client and amount. */
  predicate SameTx(a: Deposit, b: Deposit)
  {
    a.id == b.id && a.client == b.client && a.amount == b.amount
  }

  function New(id: TxId, client: ClientId, amount: Decimal): (r: Result<ReleasedDeposit>)
    ensures r.Err? <==> amount < 0
    ensures r.Err? ==> r.error == NegativeAmount
    ensures r.Ok? ==> r.value.id == id && r.value.client == client && r.value.amount == amount
  {
    if amount < 0 then Err(NegativeAmount) else Ok(Deposit(id, client, amount, DepositReleased))
  }

  function Hold(d: ReleasedDeposit): (r: HeldDeposit)
    ensures SameTx(r, d) && Transition(d.state, r.state)
  {
    Deposit(d.id, d.client, d.amount, DepositHeld)
  }

  function Release(d: HeldDeposit): (r: ReleasedDeposit)
    ensures SameTx(r, d) && Transition(d.state, r.state)
  {
    Deposit(d.id, d.client, d.amount, DepositReleased)
  }

  function Reverse(d: HeldDeposit): (r: ReversedDeposit)
    ensures SameTx(r, d) && Transition(d.state, r.state)
  {
    Deposit(d.id, d.client, d.amount, DepositReversed)
  }

  /** Holding a deposit and releasing it again gives back the very same deposit. */
  lemma HoldThenRelease(d: ReleasedDeposit)
    ensures Release(Hold(d)) == d
  {
  }

  /**
   * The lifecycle relation: Reversed is terminal, and a Released deposit can
   * only be held. The relation only describes the lifecycle; what rules out any
   * other step is the subset-typed parameters of Hold, Release and Reverse,
   * as the source's typestate parameters do.
   */
  lemma TransitionsClosed(s: DepositState)
    ensures !Transition(DepositReversed, s)
    ensures Transition(DepositReleased, s) <==> s == DepositHeld
  {
  }

  /** What a deposit contributes to a balance. */
  function AmountOf(d: Deposit): nat
  {
    d.amount
  }
}
