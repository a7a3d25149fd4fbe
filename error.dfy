/** The errors the contract entry points return. */
module Errors {
  import opened CosmwasmStd

  datatype ContractError =
    | Std(err: StdError)   // a library error passed through with `?`
    | Unauthorized         // the sender may not mint
    | CannotExceedCap      // a mint would take the supply over the cap
    | Overflow             // a `Uint128` addition overflowed; the source panics and the call aborts
}
