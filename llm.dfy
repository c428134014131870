/**
 * The generative model the backend asks for sentiments, briefings, chart
 * descriptions and news alerts. The model itself is outside the system:
 * it appears as a function from prompt to reply.
 */
module Llm {
  import opened Wrappers

  /** The prompts the backend sends, by their variable content. */
  datatype Prompt =
    | HeadlineSentiment(headline: string)        // the analyzer behind the sentiment endpoint
    | HeadlineClassification(headline: string)   // the older synchronous analyzer
    | Briefing(holdingsText: string, newsText: string)
    | ChartTrend(ticker: string, closes: seq<real>, startPrice: real, endPrice: real)
    | NewsImpact(ticker: string, headline: string)

  /**
   * How a call to the model ends: a JSON reply whose `response` field may be
   * missing, no connection (a timeout or refused connection), or a reply the
   * client rejects (an error status, or a body that is not JSON).
   */
  datatype Reply =
    | Answered(response: Option<string>)
    | Unreachable
    | Rejected
}
