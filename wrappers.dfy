/** Failure-carrying values shared by every module: the exceptions the wallet
    backend raises become `Err` values of one `Error` type. */
module Wrappers {

  datatype Option<T> = None | Some(value: T)

  /** The kinds of exception the backend raises, named after their cause. */
  datatype Error =
    | NoSuchAddress             // attribute access on a row that `get_address` did not find
    | AddressNotFound           // "Address does not exist in the database."
    | UnknownAsset              // asset symbol missing from the token registry
    | InsufficientFunds         // native balance does not cover the cost
    | InsufficientTokenBalance  // token balance below the minor-unit value
    | NotValid                  // "Transaction is not valid."
    | AlreadyRecorded           // a history row already carries the hash
    | TokenNotRecognized        // deposit target is not a registered contract
    | NotATransfer              // no receipt log emitted by the token contract
    | UndecodableLog            // the matching log is not a Transfer event
    | ChainUnavailable          // a chain gateway call raised
    | IntegrityError            // a unique or NOT NULL constraint was violated at commit
    | DataError                 // a value does not fit its column's type at commit
    | ValueOutOfRange           // a wei amount outside [0, 2^256 - 1] in a unit conversion
    | InvalidOperation          // `Decimal.quantize` needs more digits than the context's precision
    | RequestInvalid            // a request body failed its field declarations

  datatype Result<T> = Ok(value: T) | Err(error: Error)

  /** Result of an operation that returns nothing on success. */
  datatype Outcome = Pass | Fail(error: Error)
}
