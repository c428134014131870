/**
 * What both alert engines send over the alert channel, and the price
 * lookup they share: a ticker whose last price is unknown or zero has no
 * usable price.
 */
module AlertMessages {
  import opened Wrappers

  /**
   * The alerts, by their variable content; the text around it and the
   * two-decimal formatting of prices are not modelled.
   */
  datatype Notice =
    | PriceCrossed(ticker: string, targetPrice: real, currentPrice: real)
    | AutoTradeExecuted(action: string, quantity: int, ticker: string, currentPrice: real)
    | NewsAlert(text: string)

  /** `prices.get(ticker)` when it is truthy: a known, non-zero price. */
  function KnownPrice(prices: map<string, real>, ticker: string): (p: Option<real>)
    ensures p.Some? <==> ticker in prices && prices[ticker] != 0.0
    ensures p.Some? ==> p.value == prices[ticker]
  {
    if ticker in prices && prices[ticker] != 0.0 then Some(prices[ticker]) else None
  }

  /** A broadcast reaches the channel only when one is set. */
  function Announce(sent: seq<Notice>, n: Notice, channel: bool): (r: seq<Notice>)
    ensures channel ==> r == sent + [n]
    ensures !channel ==> r == sent
  {
    if channel then sent + [n] else sent
  }
}
