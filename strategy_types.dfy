/** Values shared by the parts of a trading strategy: instrument codes, entrust
    numbers, the record kept per outstanding order, and the exceptions an
    operation of the strategy can end in. */
module StrategyTypes {

  datatype Option<T> = None | Some(value: T)

  /** An instrument (stock) code, such as "600000". */
  type Code = string

  /** The number the trading backend assigns to an order it accepted. */
  type EntrustNo = string

  /** A point in time (a `DateTime`), as a count of clock ticks. */
  type Time = int

  /** An order price; the strategy only passes it on to the backend. */
  type Price

  /** A live quote queue owned by the market-data registry; the strategy only holds it. */
  type BidCacheQueue

  /** One outstanding order: its entrust number and when the strategy recorded it. */
  datatype EntrustInfo = EntrustInfo(no: EntrustNo, time: Time)

  /** The exceptions that leave an operation of the strategy. */
  datatype Failure =
    | BackendError(reason: string)     // the trading backend threw
    | DuplicateEntrust(no: EntrustNo)  // Dictionary.Add on an entrust number already tracked
    | BadCancelSpan                    // the configured cancel span does not parse as an int
    | CollectionModified               // the table changed while it was being enumerated

  /** The value an operation returns, or the exception it throws. */
  datatype Result<T> = Ok(value: T) | Err(error: Failure)

  /** How an operation that returns nothing ends. */
  datatype Outcome = Pass | Fail(error: Failure)
}
