/**
 * A dispute (src/dispute.rs): a claim that an earlier deposit was erroneous.
 * It names the deposit and the client and carries no amount; its effect on an
 * account is Accounts.DisputeStep.
 */
module Disputes {
  import opened Ids

  datatype Dispute = Dispute(id: TxId, client: ClientId)
}
