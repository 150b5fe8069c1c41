/** The trading backend the strategy forwards its orders to. Its behaviour is
    not part of this model: it is an oracle that answers the n-th request it
    receives with an entrust number or an exception, and it keeps a log of
    the requests so that what the strategy asked of it can be stated. */
module Trader {
  import opened StrategyTypes

  /** The calls of the backend's trading interface. */
  datatype Request =
    | Buy(code: Code, price: Price, num: int)
    | Sell(code: Code, price: Price, num: int)
    | Cancel(no: EntrustNo)
    | KeepSession

  /** A call that returned (with the entrust number, where it has one) or threw. */
  datatype Reply = Accepted(no: EntrustNo) | Rejected(reason: string)

  class StockTrader {
    /** How the backend answers its n-th request. */
    const answer: (nat, Request) -> Reply
    /** Every request received so far, oldest first. */
    var requests: seq<Request>

    constructor (answer: (nat, Request) -> Reply)
      ensures this.answer == answer && requests == []
    {
      this.answer := answer;
      requests := [];
    }

    /** Send one request and wait for the backend's reply. */
    method Submit(q: Request) returns (r: Reply)
      modifies this
      ensures requests == old(requests) + [q]
      ensures r == answer(|old(requests)|, q)
    {
      r := answer(|requests|, q);
      requests := requests + [q];
    }
  }
}
