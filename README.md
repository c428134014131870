# Trading dashboard and simulator: a verified model

The system is a trading dashboard. A FastAPI simulator replays price files as live ticks, keeps one simulated brokerage account, checks price alerts and asks a local generative model about headlines. A React client shows the live quotes, a chart, the portfolio and the movers of the day, and sends trades and alerts.

This project models the logic of both halves in Dafny and proves what that logic promises:

- **Account.** The account (`PortfolioLedger`) is a class over cash, holdings, last prices and a value history. Buys and sells are refused or carried out as the service does. They keep the total value of the account when prices do not move. A buy followed by a sell of the same quantity restores it. The reported state values every holding at its last price. The history never drops its first entry.
- **Performance summary.** The summary (`Reporting`) is proved consistent with the account: market value less invested capital, profit since the start, and today's profit.
- **Alert engines.** The two engines (`AlertManagement` and `AlertEngine`) are classes whose methods perform one registration or one checking pass. The manager compares with `>=`/`<=`, keeps alerts that have no usable price, may trade, and deletes exactly the fired alerts. The service compares strictly, drops alerts without a usable price, remembers fired ids, and sends at most one news alert per pass after a five-minute cooldown.
- **Simulator data.** The data loader (`DataLoader`) covers the historical tables and previous closes, the headlines grouped by ticker, and one line-by-line generator per live price file. `get_next_tick` advances every generator once per round.
- **Headline analysis.** Both analyzers (`GenAI`, `SentimentAnalysis`) take the five newest headlines of a ticker (`News`). They classify each one, answer from a cache, and keep the cache sound: it only ever holds what a fresh analysis gives. The asynchronous one also builds the briefing and chart prompts.
- **Client.** The client modules cover:
  - the live-data store that each `market_data` message replaces (`LiveData`);
  - the chart that live ticks extend one point at a time (`ChartFeed`);
  - the watchlist (`Dashboard`) and the pinned tickers (`Pinned`);
  - the movers card (`TopMovers`);
  - the portfolio page in its current and older versions (`PortfolioPage`, `PortfolioPageLegacy`);
  - the trade ticket (`TradeTicket`) and the alert dialog in both versions (`PriceAlertModal`).
- **Shared helpers.** `Text`, `Sorting`, `Sums`, `Js`, `Llm` and `Wrappers` are shared helpers: string order, splitting and trimming, a stable sort, sums over maps, JavaScript values, and model prompts and replies.

The older copies of some client components have the same rules. `TopMovers.js` computes its lists exactly as `TopMovers.jsx` does, so `TopMovers` models both. The chart inside `DashboardPage.jsx` is `MainChart.jsx` over again. The chart inside `DashboardPage.js` draws candlesticks only, so it is `ChartFeed.Load` and `ChartFeed.Step` at `Candlestick`. The waiting view of `PortfolioPage.js` uses the same test as `Dashboard.Gate`.

Everything outside the code is an input:

- the files read;
- the model's replies, as a function from prompt to reply;
- the server's answers to the client;
- the socket messages;
- JavaScript's and Python's number conversions, as functions.

## Model

| member | source | states |
|---|---|---|
| PortfolioLedger.RecordedWindow | backend/services/portfolio_manager.py:37-40 | a recorded point keeps the first (reset) entry, drops the oldest later entry only when more than 1000 are held, ends with the new point, and never holds more than 1001 entries |
| PortfolioLedger.WithTicksLookup | backend/services/portfolio_manager.py:49-51 | after a batch, a ticker has a price iff it had one or the batch names it; the batch's last tick for it wins; prices of tickers not in the batch are kept |
| PortfolioLedger.LastPriceSome | backend/services/portfolio_manager.py:49-51 | a batch supplies a price for a ticker exactly when one of its ticks names it |
| PortfolioLedger.BuyCases | backend/services/portfolio_manager.py:53-80 | a buy is refused with its message and no change iff there is no price or the cash is below price times quantity; it raises a division by zero after taking the cash iff the position would reach zero shares; otherwise the cash drops by the cost and the shares grow by the quantity; a held position takes the weighted average cost, a new one the price itself, whatever the quantity; nothing else changes |
| PortfolioLedger.SellCases | backend/services/portfolio_manager.py:82-96 | a sell is refused with its message and no change iff there is no price, the ticker is not held, or fewer shares are held; otherwise the cash grows by the proceeds, the shares drop by the quantity with the average cost kept, and a position reaching zero is removed |
| PortfolioLedger.ValueShift | backend/services/portfolio_manager.py:21-27 | changing one priced position changes the portfolio value by the change in shares times its price |
| PortfolioLedger.BuyKeepsTotalValue | backend/services/portfolio_manager.py:58-78 | a successful buy leaves the total value (cash plus positions at market price) unchanged |
| PortfolioLedger.SellKeepsTotalValue | backend/services/portfolio_manager.py:90-94 | a successful sell leaves the total value unchanged |
| PortfolioLedger.BuyThenSellRestores | backend/services/portfolio_manager.py:53-96 | buying a ticker not held and selling the same quantity back gives back exactly the account before the buy |
| PortfolioLedger.PortfolioManager.constructor | backend/services/portfolio_manager.py:4-5 | a new account is in its reset state |
| PortfolioLedger.PortfolioManager.Reset | backend/services/portfolio_manager.py:7-14 | cash 1,000,000, no holdings, no prices, and a history of one entry holding that cash |
| PortfolioLedger.PortfolioManager.Valuation | backend/services/portfolio_manager.py:18-35 | the loop reports each position with its last price (its average cost when none was seen), the portfolio value as the sum of shares times that price, and the total value as cash plus that sum |
| PortfolioLedger.PortfolioManager.GetState | backend/services/portfolio_manager.py:17-47 | the valuation above, with the history extended by the bounded window rule only when a timestamp is given |
| PortfolioLedger.PortfolioManager.UpdatePrices | backend/services/portfolio_manager.py:49-51 | the price table becomes the batch applied in order to the old table |
| PortfolioLedger.PortfolioManager.Buy | backend/services/portfolio_manager.py:53-80 | the method's new account and reply are those of the buy rule above |
| PortfolioLedger.PortfolioManager.Sell | backend/services/portfolio_manager.py:82-96 | the method's new account and reply are those of the sell rule above |
| Reporting.GenerateSummary | backend/services/reporting_service.py:5-30 | invested capital is the sum of shares times average cost; today's profit sums price less previous close times shares over positions with a non-zero known close; market value and total profit (total value less 1,000,000) come from the valuation; the history is not extended |
| Reporting.EnrichedTerms | backend/services/reporting_service.py:16-21 | the summands read from the reported holding are the cost basis and today's move of that position |
| Reporting.MarketValueLessInvested | backend/services/reporting_service.py:17-25 | market value less invested capital is the sum of each position's unrealised profit |
| Reporting.FlatDayHasNoPnl | backend/services/reporting_service.py:19-21 | today's profit is zero when every counted close equals the price the position is valued at |
| Reporting.TradesKeepTotalPnl | backend/services/reporting_service.py:26 | a successful buy or sell at the last price leaves the reported total profit unchanged |
| Reporting.ResetAccountSummary | backend/services/reporting_service.py:17-26 | a reset account reports zero total profit and zero invested capital |
| AlertMessages.KnownPrice | backend/services/alert_manager.py:33-35 | a ticker has a usable price iff its last price is known and not zero, and then it is that price |
| AlertMessages.Announce | backend/services/alert_manager.py:55-61 | a notice is added to those sent iff an alert channel is set |
| AlertManagement.RegistrationCases | backend/services/alert_manager.py:14-26 | registration succeeds iff ticker, target and condition are all present and no alert agrees with them on those three keys; a refusal leaves the list alone and says "Invalid alert data." exactly when a key is missing; a success appends the alert at the end |
| AlertManagement.RegisterTwiceRefused | backend/services/alert_manager.py:19-22 | registering the same alert again is refused as a duplicate, with the list unchanged |
| AlertManagement.PassedKeepsPrices | backend/services/alert_manager.py:46-52 | auto-trades never change the prices, so every alert of a pass is judged on the prices at its start |
| AlertManagement.CrashIsFinal | backend/services/alert_manager.py:51 | once a buy has raised, the rest of the pass changes nothing |
| AlertManagement.SilentWithoutChannel | backend/services/alert_manager.py:55-61 | without a channel a pass sends no notice |
| AlertManagement.PlainPass | backend/services/alert_manager.py:58-61 | without auto-trading alerts a pass leaves the account alone, cannot raise, and sends one crossing notice per fired alert, in order, with the ticker, target and current price |
| AlertManagement.FiringFacts | backend/services/alert_manager.py:32-63 | the collected indices are exactly those of the firing alerts, each once, in increasing order |
| AlertManagement.KeptExactly | backend/services/alert_manager.py:33-66 | after the pass an alert remains iff it did not fire; alerts without a usable price always remain; remaining and fired alerts together number as many as before |
| AlertManagement.KeptAppend | backend/services/alert_manager.py:65-66 | the alerts kept from two lists joined are those kept from each, joined |
| AlertManagement.DeleteStep | backend/services/alert_manager.py:65-66 | deleting the next collected index, from the highest down, keeps the list in the form "untouched prefix, then the kept alerts" |
| AlertManagement.DeleteDone | backend/services/alert_manager.py:65-66 | once every collected index has been deleted, the list is exactly the non-firing alerts in their order |
| AlertManagement.AlertManager.constructor | backend/services/alert_manager.py:6-8 | no alerts and no channel |
| AlertManagement.AlertManager.SetAlertChannel | backend/services/alert_manager.py:10-12 | the channel is set as given |
| AlertManagement.AlertManager.SetPriceAlert | backend/services/alert_manager.py:14-26 | the new list and the reply are those of the registration rule |
| AlertManagement.AlertManager.FirePass | backend/services/alert_manager.py:31-63 | the first loop of a pass: fires with the inclusive rule (above at or over, below at or under, other conditions never), auto-trades only with a truthy action and quantity, sends the trade or crossing notice, and, unless a buy raised, collects exactly the firing indices |
| AlertManagement.AlertManager.RemoveFired | backend/services/alert_manager.py:65-66 | deleting the collected indices from the highest down leaves exactly the non-firing alerts in their original order |
| AlertManagement.AlertManager.CheckAlerts | backend/services/alert_manager.py:31-66 | one pass: account and notices follow the first loop; when no trade raised the fired alerts are removed and the rest keep their order; when a buy raised no alert is removed |
| AlertManagement.FiringGap | backend/services/alert_manager.py:63 | between two consecutive collected indices, before the first and after the last, no alert fires |
| AlertManagement.DeleteAt | backend/services/alert_manager.py:65-66 | deleting the collected index just below the untouched prefix keeps the list in the form "untouched prefix, then the kept alerts" |
| AlertManagement.KeptNoneFire | backend/services/alert_manager.py:65-66 | a run of alerts none of which fires is kept whole |
| AlertManagement.FiringCount | backend/services/alert_manager.py:32-63 | the number of firing alerts grows by one exactly for a first alert that fires |
| AlertManagement.KeptGap | backend/services/alert_manager.py:65-66 | a firing alert followed by a run that does not fire keeps only that run |
| AlertEngine.Registration | backend/services/alert_service.py:21-26 | an alert is accepted, appended at the end, iff its "ticker-condition-price" id has not fired before; active duplicates are accepted; a refusal leaves the list alone with its message |
| AlertEngine.PricePassExactly | backend/services/alert_service.py:33-50 | after the price pass an alert is active iff its price is known and does not cross (strictly above, strictly below), so alerts without a usable price are dropped; the recorded ids are exactly those of the fired alerts |
| AlertEngine.FiredAlertRefused | backend/services/alert_service.py:23-47 | an alert that fired cannot be set again |
| AlertEngine.NewTitles | backend/services/alert_service.py:67 | the new headlines are the unprocessed titles, in order |
| AlertEngine.FirstNewTitle | backend/services/alert_service.py:67-71 | there is a headline to process iff some title is unprocessed, and the one chosen is the first unprocessed title |
| AlertEngine.Relevant | backend/services/alert_service.py:74-78 | the relevant ticker exists iff some held ticker occurs in the headline ignoring case, and it is the first such ticker |
| AlertEngine.NewsCycleRules | backend/services/alert_service.py:53-92 | at most one news alert per pass; none during the five-minute cooldown, which leaves the state alone; none without a channel; the cooldown restarts exactly when an alert is sent; at most one headline, one not processed before, is marked processed |
| AlertEngine.CooldownSpacing | backend/services/alert_service.py:53-58 | news alerts of two consecutive passes are at least 300 seconds apart |
| AlertEngine.AlertService.constructor | backend/services/alert_service.py:8-16 | no alerts, no fired ids, no processed news, no channel, no news alert yet |
| AlertEngine.AlertService.SetAlertChannel | backend/services/alert_service.py:18-19 | the channel is set as given |
| AlertEngine.AlertService.AddPriceAlert | backend/services/alert_service.py:21-26 | the new list and the reply are those of the registration rule |
| AlertEngine.AlertService.PricePass | backend/services/alert_service.py:31-50 | the alerts become the staying ones in order, the fired ids are added, and one crossing notice per fired alert is sent when a channel is set |
| AlertEngine.AlertService.CollectNews | backend/services/alert_service.py:63-65 | the news of the held tickers, ticker after ticker |
| AlertEngine.AlertService.FindRelevant | backend/services/alert_service.py:74-78 | the search returns the relevant ticker defined above |
| AlertEngine.AlertService.NewsPass | backend/services/alert_service.py:52-92 | the news state, notices and failure are those of the news cycle |
| AlertEngine.AlertService.CheckAlerts | backend/services/alert_service.py:28-92 | one pass: the price half, then the news half, with their notices in that order |
| DataLoader.LoadedFacts | backend/services/data_loader.py:23-45 | a ticker has historical rows iff it is configured and its chosen file (the real one before the simulated one) could be read, and the rows are that file's; it has a previous close iff it has more than one row, and that close is the second-to-last row's |
| DataLoader.LoadedDataFacts | backend/services/data_loader.py:27-39 | the historical table has an entry exactly for the configured tickers whose chosen file reads, holding that file's rows |
| DataLoader.LoadedClosesFacts | backend/services/data_loader.py:40-42 | the previous closes are exactly those of readable tickers with more than one row, each the second-to-last close |
| DataLoader.LoadHistorical | backend/services/data_loader.py:23-45 | the loop over the configured tickers builds exactly the tables described by `LoadedData` and `LoadedCloses` |
| DataLoader.WithMentionsGet | backend/services/data_loader.py:56-62 | filing one article appends its headline under a ticker once for each of its mentions of that ticker, after what was already there |
| DataLoader.WithMentionsKeys | backend/services/data_loader.py:58 | after filing one article a ticker has an entry iff it had one or the article mentions it |
| DataLoader.WithMentionsLookup | backend/services/data_loader.py:55-62 | both of the above for one article |
| DataLoader.WithArticlesLookup | backend/services/data_loader.py:54-62 | filing a run of articles appends, under each ticker, the mentioning articles in reading order, once per mention; a ticker gains an entry iff some article mentions it |
| DataLoader.GroupedNews | backend/services/data_loader.py:47-63 | the loaded news has a key exactly for the tickers some article of a `.json` file mentions, and under it exactly those articles' headlines in reading order |
| DataLoader.WithArticlesAppend | backend/services/data_loader.py:54-55 | filing two runs of articles one after the other is filing their concatenation |
| DataLoader.FileArticle | backend/services/data_loader.py:56-62 | the loop over `ticker_sentiment` creates a missing list and appends the headline, mention by mention |
| DataLoader.FileArticles | backend/services/data_loader.py:55-62 | the loop over one date's articles files them in order |
| DataLoader.FileDays | backend/services/data_loader.py:54-62 | the loop over a file's dates files every article in file order |
| DataLoader.LoadNews | backend/services/data_loader.py:47-63 | only files whose name ends in `.json` are read, in listing order, and the result is the grouping `GroupedNews` describes |
| DataLoader.TickChange | backend/services/data_loader.py:78-86 | a parsed tick carries its generator's ticker; its change is the price less the previous close and its percentage the change relative to that close; with no previous close both are 0, and a zero close gives a 0 percentage |
| DataLoader.AdvanceYieldsLines | backend/services/data_loader.py:77-86 | a generator positioned at a line that parses yields that line's tick and moves to the next line |
| DataLoader.AdvanceFacts | backend/services/data_loader.py:74-86 | a generator never changes ticker or file; once finished it only stops; any step that does not yield finishes it; its ticks are for its own ticker; a file with no line after the header yields nothing |
| DataLoader.CreateGenerators | backend/services/data_loader.py:65-72 | exactly one fresh generator per configured ticker whose live file exists, over that file's lines, no ticker twice |
| DataLoader.StepRoundIs | backend/services/data_loader.py:91-95 | in a round not yet failed, advancing a generator adds its tick, adds nothing when it stops, and records the exception it raises |
| DataLoader.StepFacts | backend/services/data_loader.py:90-95 | one step changes only the advanced generator, keeps its ticker, and adds at most one tick, for that ticker |
| DataLoader.RoundCursors | backend/services/data_loader.py:90-95 | a round leaves the generators not yet reached untouched (those after an exception are never advanced) and changes no generator's ticker |
| DataLoader.RoundOnePerTicker | backend/services/data_loader.py:88-96 | a round returns at most one tick per generator, each for an advanced generator's ticker, and with distinct generators no ticker twice |
| DataLoader.Loader.constructor | backend/services/data_loader.py:16-21 | the historical tables and previous closes are those `LoadedData` and `LoadedCloses` give for every configured ticker, the news is the grouping of the listed files, and each generator reads the lines of its own ticker's live file; the closes are loaded before the generators that read them |
| DataLoader.Loader.GetNextTick | backend/services/data_loader.py:88-96 | the returned ticks, the generators' new positions and any propagated exception are those of one round (`RoundUpTo`) over all generators |
| GenAI.Normalize | backend/services/genai_analyzer.py:35-38 | an answer is Bullish iff it contains "bullish" ignoring case, Bearish iff it does not but contains "bearish", otherwise Neutral, and never the error marker |
| GenAI.ConnectionErrorLacksB | backend/services/genai_analyzer.py:23 | the connection error text contains no letter b in either case |
| GenAI.UnreachableReadsNeutral | backend/services/genai_analyzer.py:21-23 | when the model cannot be reached, the error text is classified Neutral |
| GenAI.LearnedStep | backend/services/genai_analyzer.py:39 | one more analysed headline is added to what the cache learns iff it was not cached at the start and its call completed |
| GenAI.AllAnsweredStep | backend/services/genai_analyzer.py:42 | the gathered request is answered up to one more headline iff it was before and that headline is cached or its call completes |
| GenAI.AnswersStep | backend/services/genai_analyzer.py:40-42 | appending a headline with its fresh analysis keeps the results lined up with the headlines |
| GenAI.UpdateIsAdd | backend/services/genai_analyzer.py:39 | caching one answer after a batch is adding it to the batch |
| GenAI.ProgressStep | backend/services/genai_analyzer.py:29-42 | analysing the next headline keeps the cache sound, extends what it learned by that headline, records a raised call as a failure, and extends the results otherwise |
| GenAI.GenAIAnalyzer.constructor | backend/services/genai_analyzer.py:8-9 | the cache starts empty |
| GenAI.GenAIAnalyzer.AnalyzeHeadline | backend/services/genai_analyzer.py:29-40 | a headline cached when the analyses started is answered from the cache; otherwise the model's classification is returned and cached; a raised call returns nothing and caches nothing; the answer is always a fresh analysis and the cache stays sound |
| GenAI.GenAIAnalyzer.GetSentimentForTicker | backend/services/genai_analyzer.py:25-43 | the five most recent headlines are analysed; the cache gains exactly the uncached headlines whose calls completed; the request has a result iff every headline was cached or answered, and then each result is that headline's fresh analysis, in order |
| GenAI.BriefingPrompt | backend/services/genai_analyzer.py:47-65 | no prompt iff nothing is held; otherwise the holdings line lists "N shares of T" in account order, joined by ", ", and the news text one "News for T: ..." line per holding, joined by line breaks |
| GenAI.GeneratePortfolioBriefing | backend/services/genai_analyzer.py:45-73 | the fixed "no holdings" text for an empty portfolio, otherwise the model's answer to the briefing prompt |
| GenAI.ChartPrompt | backend/services/genai_analyzer.py:75-87 | no prompt for fewer than two closes; otherwise the last twenty closes (all of them when fewer), with the first of those as start price and the latest close as end price |
| GenAI.AnalyzeChartData | backend/services/genai_analyzer.py:75-92 | the fixed "not enough data" text for fewer than two closes, otherwise the model's answer to the chart prompt |
| News.NewerFirstIsStrictWeakOrder | backend/services/genai_analyzer.py:27 | comparing publication times newest first is a strict weak order, so the stable sort is well defined |
| News.RecentIsNewest | backend/services/genai_analyzer.py:27 | the selection has min(n, number of headlines) items, all from the ticker's headlines, in non-increasing publication time, and none left out is newer than one kept |
| SentimentAnalysis.Classify | backend/services/sentiment_analyzer.py:39-57 | Error iff the request failed; otherwise Bullish iff the stripped, lower-cased response mentions "bullish", Bearish iff it does not but mentions "bearish", else Neutral |
| SentimentAnalysis.EmptyMentionsNothing | backend/services/sentiment_analyzer.py:47 | an empty response, the default for a missing field, mentions no sentiment |
| SentimentAnalysis.NoResponseIsNeutral | backend/services/genai_analyzer.py:20 | the asynchronous analyzer's fixed text for a missing response is classified Neutral |
| SentimentAnalysis.AgreesWithAsyncAnalyzer | backend/services/sentiment_analyzer.py:47-54 | for any reply that arrived, both analyzers classify it alike |
| SentimentAnalysis.Titles | backend/services/sentiment_analyzer.py:17 | the set of headlines is exactly the titles of the items |
| SentimentAnalysis.TitlesStep | backend/services/sentiment_analyzer.py:16-17 | one more item adds exactly its title |
| SentimentAnalysis.AnswersStep | backend/services/sentiment_analyzer.py:24-27 | appending a headline with its fresh classification keeps the results lined up with the items |
| SentimentAnalysis.Recorded | backend/services/sentiment_analyzer.py:18-22 | looking a headline up keeps a sound cache sound, adds exactly that headline, and stores its fresh classification |
| SentimentAnalysis.SentimentAnalyzer.constructor | backend/services/sentiment_analyzer.py:6-8 | the cache starts empty |
| SentimentAnalysis.SentimentAnalyzer.Lookup | backend/services/sentiment_analyzer.py:18-22 | a cached headline is answered from the cache unchanged; otherwise it is classified afresh and cached; the answer is its fresh classification |
| SentimentAnalysis.SentimentAnalyzer.AnalyzeHeadlines | backend/services/sentiment_analyzer.py:15-28 | every chosen headline ends up cached, nothing else is added, the cache stays sound, and the results are the headlines in order with their fresh classifications |
| SentimentAnalysis.SentimentAnalyzer.GetSentimentForTicker | backend/services/sentiment_analyzer.py:10-28 | the same, for the five most recent headlines of the ticker (none for an unknown ticker) |
| LiveData.BatchExactly | frontend/src/context/DataContext.js:34-37 | the batch map holds exactly the batch's tickers, each with the last tick of the batch for that ticker |
| LiveData.MarketDataReplaces | frontend/src/context/DataContext.js:33-51 | after a market_data message the store holds exactly the batch's tickers, dropping all others; each entry is the last tick for its ticker with that ticker's price in the previous store; the portfolio becomes the message's |
| LiveData.LaterTickWins | frontend/src/context/DataContext.js:35-37 | of two ticks for one ticker in a batch, the later one is stored |
| LiveData.OtherMessageChangesNothing | frontend/src/context/DataContext.js:33 | a message of any other type changes neither quotes nor portfolio |
| LiveData.DataContext.constructor | frontend/src/context/DataContext.js:13-15 | empty quotes, no portfolio, not connected |
| LiveData.DataContext.OnOpen | frontend/src/context/DataContext.js:21-24 | the socket opening sets the connected flag |
| LiveData.DataContext.OnClose | frontend/src/context/DataContext.js:26-29 | the socket closing clears the connected flag |
| LiveData.DataContext.OnMessage | frontend/src/context/DataContext.js:31-53 | the two loops build exactly the store and portfolio that `Step` gives for the message |
| Pinned.Initial | frontend/src/components/usePinnedTickers.jsx:5-11 | the stored list when the key parses as a list; an empty list when it is missing, unparseable or falsy |
| Pinned.Pin | frontend/src/components/usePinnedTickers.jsx:17 | the ticker is pinned afterwards; an already pinned ticker leaves the list alone, otherwise it is appended at the end |
| Pinned.UnpinCounts | frontend/src/components/usePinnedTickers.jsx:18 | unpinning removes every occurrence of the ticker and keeps each other ticker as often as before |
| Pinned.UnpinAppend | frontend/src/components/usePinnedTickers.jsx:18 | unpinning filters element by element, so the kept tickers stay in order |
| Pinned.UnpinOne | frontend/src/components/usePinnedTickers.jsx:18 | a one-ticker list is emptied by unpinning that ticker and unchanged by any other |
| Pinned.UnpinMembers | frontend/src/components/usePinnedTickers.jsx:18 | after unpinning, the ticker is gone and every other ticker is present iff it was before |
| Pinned.UnpinAbsent | frontend/src/components/usePinnedTickers.jsx:18 | unpinning a ticker that is not there changes nothing |
| Pinned.PinIdempotent | frontend/src/components/usePinnedTickers.jsx:17 | pinning twice is pinning once |
| Pinned.ToggleMembers | frontend/src/components/usePinnedTickers.jsx:19-23 | after toggling the ticker is pinned iff it was not, and every other ticker keeps its state |
| Pinned.NoDuplicatesCount | frontend/src/components/usePinnedTickers.jsx:17 | in a list without duplicates each ticker occurs at most once |
| Pinned.CountedOnce | frontend/src/components/usePinnedTickers.jsx:17 | a list where every ticker occurs at most once has no duplicates |
| Pinned.KeepNoDuplicates | frontend/src/components/usePinnedTickers.jsx:17-22 | pin, unpin and toggle keep a duplicate-free list duplicate-free |
| Pinned.ToggleTwice | frontend/src/components/usePinnedTickers.jsx:19-22 | toggling twice restores a list that lacked the ticker; a list that held it once gets it back at the end |
| Pinned.PinStore.constructor | frontend/src/components/usePinnedTickers.jsx:5-15 | the list starts from storage as `Initial` reads it, and is written back under "pinned_tickers" |
| Pinned.PinStore.PinTicker | frontend/src/components/usePinnedTickers.jsx:13-17 | the list becomes `Pin` of the old one and is written back to storage |
| Pinned.PinStore.UnpinTicker | frontend/src/components/usePinnedTickers.jsx:13-18 | the list becomes `Unpin` of the old one and is written back |
| Pinned.PinStore.ToggleTicker | frontend/src/components/usePinnedTickers.jsx:13-22 | the list becomes `Toggle` of the old one and is written back |
| ChartFeed.Load | frontend/src/components/MainChart.jsx:29-62 | the traces have one point per bar, sharing the bars' timestamps; candles carry each bar's open, high, low and close, a line its close; the volume trace carries each bar's volume |
| ChartFeed.StepAppendsOne | frontend/src/components/MainChart.jsx:69-104 | a tick that is accepted while the drawn trace has the selected kind adds exactly one point to each trace after the points already drawn: its timestamp, its open, high, low and price when candlesticks are selected (its price alone for a line) and its volume; a tick that is not accepted, or a trace of the other kind, changes nothing |
| ChartFeed.NotNewerIgnored | frontend/src/components/MainChart.jsx:79-80 | a tick no newer than the last point drawn changes nothing |
| ChartFeed.StepIdempotent | frontend/src/components/MainChart.jsx:69-104 | seeing the same store twice draws its point once |
| ChartFeed.StepIncreasing | frontend/src/components/MainChart.jsx:79-80 | the drawn timestamps stay strictly increasing, and an accepted point lies after the previous last one |
| ChartFeed.ChartPanel.constructor | frontend/src/components/MainChart.jsx:14-18 | no bars, an empty plot, loading, no analysis and a candlestick chart |
| ChartFeed.ChartPanel.Reload | frontend/src/components/MainChart.jsx:21-67 | the analysis is cleared; without a ticker nothing else changes; with one, fetched bars replace bars and plot (a failed request keeps them) and loading ends either way |
| ChartFeed.ChartPanel.OnTickerChange | frontend/src/components/MainChart.jsx:12-67 | the same ticker changes nothing; a new one is selected with the chart kind kept, the analysis cleared, and the traces reloaded for it as `Reload` says (no ticker: nothing else changes; a failed request keeps bars and plot) |
| ChartFeed.ChartPanel.OnChartTypeChange | frontend/src/components/MainChart.jsx:116-120 | a null selection or the kind already selected changes nothing; another kind is selected, the analysis cleared and the traces reloaded in it, so a successful fetch leaves a plot of the selected kind and a failed one keeps the old plot |
| ChartFeed.ChartPanel.OnLiveData | frontend/src/components/MainChart.jsx:69-104 | the plot becomes `Step` of the old plot at the selected chart kind (line 82) on the selected ticker's entry in the store; the extension fails, leaving the plot as it was, exactly when the tick is accepted but the drawn trace is of the other kind |
| ChartFeed.ChartPanel.AnalyzeChart | frontend/src/components/MainChart.jsx:106-114 | a request goes out iff bars are loaded; the analysis becomes the reply's text, or the fixed error text when the request fails |
| Dashboard.Gate | frontend/src/pages/DashboardPage.jsx:33 | the dashboard is shown iff the socket is connected and a portfolio has arrived; otherwise the waiting view |
| Dashboard.ByTickerOrders | frontend/src/pages/DashboardPage.jsx:225 | comparing tickers is a strict weak order, so the sort is well defined |
| Dashboard.WatchlistSorted | frontend/src/pages/DashboardPage.jsx:225 | the rows are the store's quotes, each once, in ascending ticker order |
| Dashboard.WatchlistIgnoresOrder | frontend/src/pages/DashboardPage.jsx:225 | with one quote per ticker, the rows do not depend on the order the store yields its values in |
| Dashboard.DirectionRules | frontend/src/pages/DashboardPage.jsx:226-228 | a row moves up iff both prices are known and the price rose, down iff it fell, and is flat without a previous price |
| Dashboard.ChangeTone | frontend/src/pages/DashboardPage.jsx:259-260 | the change chip is green iff the change is above 0 and red iff below |
| Dashboard.LegacyChangeTone | frontend/src/pages/DashboardPage.js:92 | the older page colours the change green iff it is at least 0, red otherwise, a missing change included |
| Dashboard.PagesAgreeOnMoves | frontend/src/pages/DashboardPage.js:83-86 | the older page flashes exactly where the current page shows a move, and the two colour a change alike except at 0 and for a missing change |
| Dashboard.SpreadRules | frontend/src/pages/DashboardPage.jsx:269 | the spread is ask minus bid, a missing side read as 0 |
| Dashboard.PinButtonFlips | frontend/src/pages/DashboardPage.jsx:284-288 | a click on the pin button flips that ticker's highlight and leaves every other row's button as it was |
| TopMovers.Top | frontend/src/components/TopMovers.jsx:50-51 | a list shows at most five movers |
| TopMovers.MoverRules | frontend/src/components/TopMovers.jsx:41-47 | a holding's P&L is (price − previous close) × shares, non-number fields read as 0, and 0 without a truthy previous close; its percentage is the price's relative change since that close when shares are positive, and 0 otherwise |
| TopMovers.RelativeChange | frontend/src/components/TopMovers.jsx:46 | P&L over the position's value at the close is the price's relative change |
| TopMovers.MoversExactly | frontend/src/components/TopMovers.jsx:41-48 | the movers are exactly the holdings whose P&L is not zero: every mover moved, every holding that moved is a mover, and no other entry appears |
| TopMovers.MoversAppend | frontend/src/components/TopMovers.jsx:41-48 | movers are computed holding by holding, so they keep the holdings' order |
| TopMovers.GainsMoreOrders | frontend/src/components/TopMovers.jsx:50 | the gainers' comparator is a strict weak order |
| TopMovers.LosesMoreOrders | frontend/src/components/TopMovers.jsx:51 | the losers' comparator is a strict weak order |
| TopMovers.TopOfSorted | frontend/src/components/TopMovers.jsx:50-51 | the first five of a sorted copy: as many as exist up to five, all from the list, sorted, and none beaten by an element left out |
| TopMovers.TopGainersAreTop | frontend/src/components/TopMovers.jsx:50 | the top gainers are min(5, movers) of the movers, largest P&L first, each at least as large as every mover left out |
| TopMovers.TopLosersAreTop | frontend/src/components/TopMovers.jsx:51 | the top losers are min(5, movers) of the movers, smallest P&L first, each at most every mover left out |
| TopMovers.LeftOutBeaten | frontend/src/components/TopMovers.jsx:50-51 | no mover left out of the five comes before one kept |
| TopMovers.SignFilters | frontend/src/components/TopMovers.jsx:124-146 | the gainers shown are exactly the listed entries with positive P&L, the losers shown those with negative P&L |
| TopMovers.CardShows | frontend/src/components/TopMovers.jsx:10-146 | the card waits iff there are no previous closes; otherwise it shows exactly the positive top gainers and the negative top losers |
| PortfolioPage.SafeNumber | frontend/src/pages/PortfolioPage.jsx:127-131 | a number is kept; null and undefined read as 0; a string is cleaned of `$`, `,` and `%`, trimmed of JavaScript white space and parsed, NaN reading as 0 |
| PortfolioPage.UndecoratedRules | frontend/src/pages/PortfolioPage.jsx:129 | cleaning works character by character and keeps exactly the characters that are not `$`, `,` or `%` |
| PortfolioPage.Rows | frontend/src/pages/PortfolioPage.jsx:133-144 | one row per holding, in holdings order, each as `RowOf` computes it |
| PortfolioPage.RowRules | frontend/src/pages/PortfolioPage.jsx:134-142 | a row is keyed by its ticker; its profit is market value less cost basis; for a positive cost basis the percentage applied back to the cost gives the profit and is positive iff the value exceeds the cost; otherwise it is 0; a price at the average cost is no profit |
| PortfolioPage.TotalPnlIsValueLessCost | frontend/src/pages/PortfolioPage.jsx:146-148 | the total profit is the table's total market value less its total cost basis |
| PortfolioPage.ValueLessCost | frontend/src/pages/PortfolioPage.jsx:146-148 | the same for any rows whose profit is value less cost |
| PortfolioPage.PrevDayClosesRule | frontend/src/pages/PortfolioPage.jsx:210-212 | with one quote per ticker, each ticker maps to its price less its change, and the movers card sees a previous close for it iff both are known and differ |
| PortfolioPage.SellDisabledRules | frontend/src/pages/PortfolioPage.jsx:705 | the sell button is disabled for a quantity above the shares held and for any quantity without a position, and enabled for a quantity between 1 and the shares held when idle |
| PortfolioPage.SellDialog.constructor | frontend/src/pages/PortfolioPage.jsx:19-22 | the dialog starts closed, with no position, no quantity and nothing in flight |
| PortfolioPage.SellDialog.Start | frontend/src/pages/PortfolioPage.jsx:54-58 | the dialog opens on the position with its share count as the quantity |
| PortfolioPage.SellDialog.Confirm | frontend/src/pages/PortfolioPage.jsx:60-91 | nothing is sent without a position or with an empty or non-positive quantity; a parsed quantity above the shares held only warns; otherwise the parsed quantity is sold, and a success closes and clears the dialog and refreshes the history while a failure warns with the server's or a fixed message and leaves it open |
| PortfolioPage.SellDialog.Cancel | frontend/src/pages/PortfolioPage.jsx:93-97 | the dialog closes and forgets the position and quantity |
| PortfolioPageLegacy.FormatNumber | frontend/src/pages/PortfolioPage.js:14 | a number is shown as it is, anything else as 0 |
| PortfolioPageLegacy.Rows | frontend/src/pages/PortfolioPage.js:60-64 | one row per holding, keyed by its ticker, carrying every field of the holding |
| PortfolioPageLegacy.Entries | frontend/src/pages/PortfolioPage.js:60-64 | the same holdings as the current page receives them |
| PortfolioPageLegacy.RowAgrees | frontend/src/pages/PortfolioPage.js:32-55 | on one holding the older page's profit equals the current page's, and so does its percentage for a positive cost basis |
| PortfolioPageLegacy.AgreesWithCurrentPage | frontend/src/pages/PortfolioPage.js:66-70 | on the same holdings both pages show the same total profit, and the same percentage in every row with a positive cost basis |
| PortfolioPageLegacy.PrefixRows | frontend/src/pages/PortfolioPage.js:60-64 | the rows of the first holdings are the first rows |
| PortfolioPageLegacy.PnlPercentRules | frontend/src/pages/PortfolioPage.js:49-55 | a row that cost nothing shows 0 %; otherwise the percentage applied to the cost gives the profit |
| TradeTicket.EstimatedCost | frontend/src/components/AdvancedTradeTicket.js:10-16 | price times quantity for a truthy price and a positive quantity, otherwise 0; never negative for a positive price |
| TradeTicket.HandleTradeRules | frontend/src/components/AdvancedTradeTicket.js:18-33 | a request is sent iff there is a ticker and the quantity is not below 1, to the action's endpoint with the parsed quantity; the toast is a success iff the server says so and then names the verb, the quantity and the ticker; a refusal shows the fixed error |
| TradeTicket.NaNQuantityPasses | frontend/src/components/AdvancedTradeTicket.js:19 | a quantity that is not a number is not refused, and the request carries its parsed value |
| PriceAlertModal.PayloadRegisters | backend/api/router.py:22-36 | the route reads only ticker, target price and condition from the body the current dialog posts (frontend/src/components/PriceAlertModal.jsx:21-38) and hands them to the service's registration: it succeeds iff that alert's id is not among the recently fired ones, then appends exactly that alert, and otherwise is refused with the service's message; the trade keys make no difference |
| PriceAlertModal.LegacyPayloadRegisters | backend/api/router.py:22-26 | the older dialog's body (frontend/src/components/PriceAlertModal.js:16-20) is accepted as a request iff its condition is set, and then it is the current dialog's request without trade keys |
| PriceAlertModal.AlertModal.constructor | frontend/src/components/PriceAlertModal.jsx:7-13 | every field starts at its default: no price, "above", no auto trade, "buy", quantity 1 |
| PriceAlertModal.AlertModal.SetAlert | frontend/src/components/PriceAlertModal.jsx:15-47 | an empty or non-numeric price is refused with its message; with auto trade on a quantity below 1 is refused with its message; otherwise the body with the parsed price, condition and (with auto trade) action and quantity is posted; success toasts the server's message and closes, a refusal warns with it, a failed request shows the fixed error |
| PriceAlertModal.AlertModal.Close | frontend/src/components/PriceAlertModal.jsx:50-57 | every field is reset to its default |
| PriceAlertModal.AlertModal.OnTargetPriceChange | frontend/src/components/PriceAlertModal.jsx:70 | the price field takes the typed text and nothing else changes |
| PriceAlertModal.AlertModal.OnConditionChange | frontend/src/components/PriceAlertModal.jsx:65 | a selection sets the condition, a deselection keeps it |
| PriceAlertModal.AlertModal.OnAutoTradeChange | frontend/src/components/PriceAlertModal.jsx:76 | the switch sets only the auto-trade flag |
| PriceAlertModal.AlertModal.OnActionChange | frontend/src/components/PriceAlertModal.jsx:82 | a selection sets the trade action, a deselection keeps it |
| PriceAlertModal.AlertModal.OnQuantityChange | frontend/src/components/PriceAlertModal.jsx:90 | the quantity becomes `Number` of the typed text |
| PriceAlertModal.LegacyAlertModal.constructor | frontend/src/components/PriceAlertModal.js:7-8 | no price and the condition "above" |
| PriceAlertModal.LegacyAlertModal.OnTargetPriceChange | frontend/src/components/PriceAlertModal.js:40 | the price field takes the typed text |
| PriceAlertModal.LegacyAlertModal.OnConditionChange | frontend/src/components/PriceAlertModal.js:36 | the condition becomes whatever the buttons report, a deselection leaving none |
| PriceAlertModal.LegacyAlertModal.SetAlert | frontend/src/components/PriceAlertModal.js:10-30 | the same price check, post and replies as the current dialog, without trade keys |
| Sorting.SortBy | backend/services/genai_analyzer.py:27 | the sorted copy is a permutation of its input |
| Sorting.SortBySorted | backend/services/genai_analyzer.py:27 | for a strict weak order the copy is sorted: no element comes before one to its left |
| Sorting.SortedUnique | frontend/src/pages/DashboardPage.jsx:225 | two sorted permutations of the same elements, any two of which are ordered, are equal |
| Sorting.InsertTies | backend/services/genai_analyzer.py:27 | inserting an element puts it in front of every element it is tied with and leaves their order alone |
| Sorting.SortByStable | backend/services/genai_analyzer.py:27 | the sort is stable: for every element, those tied with it come out in the order they went in |
| Text.Split | backend/services/data_loader.py:78 | splitting gives at least one field and no field holds the separator |
| Text.JoinSplit | backend/services/data_loader.py:78 | joining the fields with the separator gives the line back |
| Text.TrimStartRules | backend/services/data_loader.py:78 | Python's `strip` removes only leading white space (space, `\t`, `\n`, `\r`, `\x0b`, `\x0c` and `\x1c`–`\x1f`), and all of it |
| Text.TrimEndRules | backend/services/data_loader.py:78 | only trailing white space is removed, and all of it |
| Text.TrimRules | frontend/src/pages/PortfolioPage.jsx:129 | JavaScript's `trim` removes a leading and a trailing run of its white space (Python's without `\x1c`–`\x1f`), and all of both |
| Text.Lower | backend/services/sentiment_analyzer.py:47 | each letter is mapped to lower case, position by position |

## Left out

- **Rendering.** All markup, styling, Plotly layout and animation output is left out: it decides nothing the model states.
- **Network I/O and the socket itself.** Requests, the WebSocket lifecycle (one socket opened on mount and closed on unmount) and server broadcasting are left out. Server replies, socket messages and the alert channel's presence are method inputs.
- **Concurrency and timing.** The `while True` loops, `asyncio.sleep` and timers are left out, and the scheduling of `asyncio.gather` is fixed: each method models one pass. For the concurrent headline analyses, every lookup sees the cache as it was when the analyses started.
- **Iteration order of dicts, sets and directories.** For holdings, processed headlines and directory listings, the order is a sequence given as input.
- **Model calls.** The HTTP calls to the generative model are a function from prompt to reply. An HTTP error status in the asynchronous analyzer is `raise_for_status` raising something other than `RequestError`; it is modelled as a rejected reply that propagates as an exception.
- **Files and storage.** File, CSV, JSON and pandas loading and `localStorage` are abstracted as the parsed contents: maps and sequences of lines, rows and articles. A stored pinned value that parses to something other than a list or a falsy value is not modelled; only lists and falsy values are.
- **Numbers.** Floating point is modelled as exact `real` arithmetic: there is no rounding and no infinities. NaN appears only where the code tests for it (`Js.Number`).
- **Conversions and dates.** `parseFloat`, `parseInt`, `Number()`, Python's `float` and `new Date()` are parameters. Client timestamps are the integers `new Date` would give.
- **Text.** Upper and lower case, white space and `localeCompare` are ASCII and code-unit order. White space is the ASCII set of each language: Python's `strip` also removes `\x1c`–`\x1f`, JavaScript's `trim` does not. Unicode case folding, Unicode white space and locale collation are not modelled.
- **Display formatting.** The two-decimal formatting of prices in notices and the `toLocaleString` formatting on the pages are left out. Notices are modelled by their variable content (`AlertMessages.Notice`).
- **Optional tick fields.** Tick fields that a backend tick lacks (volume, open, high, low, bid, ask) are `Option` values. Since the simulator's ticks carry no volume, the chart's volume guard never passes against this backend; the guard is modelled as written.
- **Socket paths.** The client's socket path `/ws/live` does not match the paths the server serves. This wiring is outside the model.
- **Which engine the router uses.** The router registers alerts with the alert service (`AlertEngine`), while the application also runs the alert manager's checker; the two engines are modelled independently, and no route reaches the manager's registration.
- **Empty live file.** A live file with no header line makes `next(f)` raise inside the generator. This is modelled as the `RuntimeError` Python turns that `StopIteration` into.
- ChartFeed.ChartPanel.Reload: the older dashboard chart reloads only when the ticker changes, not when a chart kind changes; it has no chart kind, so no separate class models it. The fetch is modelled as finishing at once, so no live tick arrives while a reload is pending.
- ChartFeed.ChartPanel.OnLiveData: Plotly's `extendTraces` throws when the new point names a column the drawn trace lacks; the model reports that as `failed` with the plot unchanged and does not model the exception reaching React.
- PriceAlertModal.AlertModal.SetAlert: a successful alert calls the parent's close callback, not the dialog's own reset, so its fields are left as they were. The model says the same by not changing them.

- PriceAlertModal.LegacyAlertModal.SetAlert: a deselected condition is posted as JSON `null`, which the route's request model rejects; the rejection is the request failing, as `LegacyPayloadRegisters` states, and the server's error reply is not modelled.
- PortfolioPage.SellDialog.Confirm: a quantity that parses to NaN is sent as it is; JSON encodes it as `null` on the wire, which the model does not show.
- PortfolioPageLegacy.Rows: the older page multiplies the server's fields as they come. They are modelled as numbers, with a missing market price as `None`; a `null` or string share count is not modelled.
