/**
 * The trade ticket: the estimated cost shown beside the quantity field,
 * and the checks and messages around a buy or sell request.
 */
module TradeTicket {
  import opened Wrappers
  import Js

  datatype Action = Buy | Sell

  /** A notification toast. */
  datatype Toast = ToastSuccess(text: string) | ToastError(text: string)

  /** What the server says: a reply, or a failed request with the error body's message if any. */
  datatype TradeReply = Replied(success: bool, message: string) | Failed(errorMessage: Option<string>)

  /** The request sent: the endpoint and the body's quantity. */
  datatype TradeRequest = TradeRequest(path: string, ticker: string, quantity: Js.Number)

  const InvalidInput: string := "Please select a ticker and enter a valid quantity."

  /** The quantity field holds `Number(input)`, NaN for text that is not a number. */
  predicate Positive(q: Js.Number) { q.Finite? && q.v > 0.0 }

  /** The estimated cost: price times quantity for a truthy price and a positive quantity, else 0. */
  function EstimatedCost(price: Option<real>, quantity: Js.Number): (cost: real)
    ensures Js.TruthyNum(price) && Positive(quantity) ==> cost == price.value * quantity.v
    ensures !(Js.TruthyNum(price) && Positive(quantity)) ==> cost == 0.0
    ensures price.Some? && price.value > 0.0 ==> cost >= 0.0
  {
    if Js.TruthyNum(price) && Positive(quantity) then price.value * quantity.v else 0.0
  }

  function Endpoint(a: Action): string
  {
    match a
    case Buy => "/buy"
    case Sell => "/sell"
  }

  function Verb(a: Action): string
  {
    match a
    case Buy => "bought"
    case Sell => "sold"
  }

  /**
   * `handleTrade`: refused with an error toast and no request without a
   * ticker or for a quantity below 1 (NaN is not below 1 and goes
   * through); otherwise the request carries `parseInt(quantity, 10)` and the
   * toast follows the reply. `show` is how the quantity prints in the text.
   */
  function HandleTrade(ticker: string, quantity: Js.Number, action: Action,
                       parseInt: Js.Number -> Js.Number, show: Js.Number -> string,
                       reply: TradeReply): (Option<TradeRequest>, Toast)
  {
    if ticker == "" || Js.LessThanOne(quantity) then (None, ToastError(InvalidInput))
    else
      var request := TradeRequest(Endpoint(action), ticker, parseInt(quantity));
      match reply
      case Replied(true, _) => (Some(request), ToastSuccess("Successfully " + Verb(action) + " " + show(quantity) + " of " + ticker))
      case Replied(false, message) => (Some(request), ToastError("Trade failed: " + message))
      case Failed(m) => (Some(request), ToastError("Trade failed: " + (if Js.TruthyStr(m) then m.value else "Server error")))
  }

  /**
   * A request goes out exactly when there is a ticker and the quantity is
   * not below 1, to the action's endpoint with the parsed quantity; the toast
   * is a success exactly when the server says so, and names the verb.
   */
  lemma HandleTradeRules(ticker: string, quantity: Js.Number, action: Action,
                         parseInt: Js.Number -> Js.Number, show: Js.Number -> string, reply: TradeReply)
    ensures var (request, toast) := HandleTrade(ticker, quantity, action, parseInt, show, reply);
      && (request.None? <==> ticker == "" || (quantity.Finite? && quantity.v < 1.0))
      && (request.None? ==> toast == ToastError(InvalidInput))
      && (request.Some? ==> request.value == TradeRequest(Endpoint(action), ticker, parseInt(quantity)))
      && (request.Some? ==> (toast.ToastSuccess? <==> reply.Replied? && reply.success))
      && (request.Some? && toast.ToastSuccess? ==>
            toast.text == "Successfully " + (if action == Buy then "bought" else "sold") + " " + show(quantity) + " of " + ticker)
  {
  }

  /** A quantity typed as text that is not a number is not refused: the request goes out with NaN parsed. */
  lemma NaNQuantityPasses(ticker: string, action: Action, parseInt: Js.Number -> Js.Number,
                          show: Js.Number -> string, reply: TradeReply)
    requires ticker != ""
    ensures HandleTrade(ticker, Js.NaN, action, parseInt, show, reply).0 == Some(TradeRequest(Endpoint(action), ticker, parseInt(Js.NaN)))
  {
  }
}
