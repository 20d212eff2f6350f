/**
 * The error kinds a transaction can be rejected with (src/err.rs), and the
 * result type of every ledger operation.
 */
module Errors {
  datatype TxErr =
    | MissingAmount
    | NegativeAmount
    | Insufficient
    | AccessUnavailable
    | Overflow
    | Duplicate
      // The next three are used by the account and the database but are not
      // declared in the error enumeration; they are added here.
    | MissingTxForClient
    | MissingTx
    | ExtraneousAmount

  datatype Result<+T> = Ok(value: T) | Err(error: TxErr)

  /** The result of an operation that produces nothing but may fail. */
  type TxResult = Result<()>
}
