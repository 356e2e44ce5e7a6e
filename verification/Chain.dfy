/** What the contracts take from the chain: addresses, machine integers and atomic results.

    The release profile panics on overflow, so an operation that leaves its integer type,
    like any returned error, aborts the whole transaction. Both are an `Abort` here, and
    `:-` propagates it exactly as `?` and a panic do. */
module Chain {
  type Address = string

  const U64_LIMIT: nat := 0x1_0000_0000_0000_0000
  const U128_LIMIT: nat := 0x1_0000_0000_0000_0000_0000_0000_0000_0000

  datatype Error =
    | Arithmetic          // overflow, underflow or division by zero
    | Unauthorized
    | InsufficientFunds
    | Stopped
    | NotFound
    | Closed
    | Malformed
    | SupplyOverflow      // minted above the largest total supply
    | AccountOverflow     // minted above the largest balance
    | TooRich             // received above the largest balance
    | BurnAboveSupply     // burned more than the total supply

  datatype Option<+T> = None | Some(value: T)

  datatype Result<+T> = Ok(value: T) | Abort(error: Error) {
    predicate IsFailure() {
      Abort?
    }

    function PropagateFailure<U>(): Result<U>
      requires Abort?
    {
      Abort(error)
    }

    function Extract(): T
      requires Ok?
    {
      value
    }
  }

  function Add128(a: nat, b: nat): Result<nat> {
    if a + b < U128_LIMIT then Ok(a + b) else Abort(Arithmetic)
  }

  function Mul128(a: nat, b: nat): Result<nat> {
    if a * b < U128_LIMIT then Ok(a * b) else Abort(Arithmetic)
  }

  function Add64(a: nat, b: nat): Result<nat> {
    if a + b < U64_LIMIT then Ok(a + b) else Abort(Arithmetic)
  }

  /** Subtraction aborts below zero, whatever the width. */
  function Sub(a: nat, b: nat): Result<nat> {
    if b <= a then Ok(a - b) else Abort(Arithmetic)
  }

  function Div(a: nat, b: nat): Result<nat> {
    if b != 0 then Ok(a / b) else Abort(Arithmetic)
  }
}
