/**
 * A chargeback (src/chargeback.rs): ends a dispute by reversing the deposit.
 * It names the held deposit and the client and carries no amount; its effect
 * on an account is Accounts.ChargebackStep.
 */
module Chargebacks {
  import opened Ids

  datatype Chargeback = Chargeback(id: TxId, client: ClientId)
}
