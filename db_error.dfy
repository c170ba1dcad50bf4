/** The errors of the SQLite store (db/src/error.rs). */
module DbErrors {
  import Decimal

  /** The failures of the SQL engine that the store's operations can meet. */
  datatype DieselError =
    | RowNotFound
    | UniqueViolation

  /** `Error`, plus `SelfTip`, which the store's tip operations return but
      the error enum of this snapshot does not declare. */
  datatype DbError =
    | CoinOverflow
    | NotFound(message: string)
    | Unexpected(message: string)
    | Db(dieselError: DieselError)
    | IdParse(parseError: Decimal.ParseIntError)
    | BadId
    | Env
    | Connection
    | RecordExists
    | InsufficientFunds
    | SelfTip
}
