/**
 * A resolve (src/resolve.rs): ends a dispute in the client's favour. It names
 * the held deposit and the client and carries no amount; its effect on an
 * account is Accounts.ResolveStep.
 */
module Resolves {
  import opened Ids

  datatype Resolve = Resolve(id: TxId, client: ClientId)
}
