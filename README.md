# Stock-UP portfolio ledger in Dafny

A model of the paper-trading ledger behind the Stock-UP backend. A signed-in user
has a cash balance, at most one portfolio of stock holdings and a log of BUY and
SELL transactions. The portfolio controller changes them:

- `buyStock` validates the request and checks the balance. It debits the cost,
  merges the trade into the holding for the symbol (or opens a new one), records a
  BUY transaction and recomputes the cached portfolio totals.
- `sellStock` validates the request and finds the holding. It credits the sale
  value, records a SELL transaction, removes the holding or scales down its amount
  invested, and recomputes the totals.
- `addMoney` and `withdrawMoney` move cash in and out.
- `getPortfolio` creates the portfolio if needed and revalues every holding at
  fresh prices.
- `getTransactionHistory` filters, sorts and pages the transaction log.

The project has these modules:

- **Controller** (`controller.dfy`). The stored documents are classes: `Account`,
  `Portfolio` and `TransactionLog`. The handlers are methods of
  `PortfolioController`, which update the fields in place.
  - Each handler's contract says that afterwards the documents, read as a
    `Ledger` value, are exactly what the matching step function of `Ledger`
    gives, and that the reply is the same too.
  - Each handler also keeps the ledger invariant `Valid()`.
- **Ledger** (`ledger.dfy`). This is the pure specification of each handler as a
  step `Ledger -> (Ledger, reply)`. A rejection returns the ledger unchanged,
  which is how the model captures the database session's abort. The buy and sell
  steps, and so the controller's methods, look a holding up by the symbol's stored
  form (trimmed and upper-cased). The source looks it up by the upper-cased symbol
  alone; that lookup is modelled separately in `Findings` (see "Findings").
- **LedgerLaws** (`ledger_laws.dfy`). These are the properties of the steps:
  - the invariant (non-negative balance, live and uniquely keyed holdings, totals
    that match the holdings, a log of well-formed records of this user);
  - cost-basis accounting for buys and sells;
  - average-price bounds;
  - conservation of money between the balance and the log over any sequence of
    requests;
  - the log only grows.
- **Records** (`records.dfy`). The holding, portfolio and transaction schemas:
  required fields, `min: 0`, upper-case and trim setters, the BUY/SELL enum,
  defaults, and the unique owner index.
- **Validation** (`validation.dfy`). `validateStockInput` over JSON request
  values.
- **Pricing** (`pricing.dfy`). `getCurrentPrice` without its network call: which
  reply field is used, and the fallback table.
- **Valuation** (`valuation.dfy`). `calculatePortfolioTotals` and the
  per-holding refresh of `getPortfolio`.
- **History** (`history.dfy`). `getTransactionHistory`: the filter, the newest-first
  order, skip and limit, and the pagination fields.
- **Money** (`money.dfy`). Rounding to cents as the code writes it:
  `Math.round(x * 100) / 100`.
- **Text** (`text.dfy`). `trim` and `toUpperCase` on symbols.
- **Findings** (`findings.dfy`). The holding lookup as written. See below.

Modelling choices:

- **Numbers.** JavaScript numbers are Dafny `real`s, so arithmetic is exact.
  `Math.round` is written out as floor of `x + 1/2`, which rounds halves upward.
- **Prices.** The price the oracle returns for a trade is a `quote` parameter.
  For `getPortfolio` it is an `oracle` function from symbols to prices.
- **Order of records.** The transaction log is kept in the order records were
  added, so "newest first" is that order reversed.

## Model

| member | source | states |
|---|---|---|
| Money.Round2 | controllers/portfolioController.js:107-112 | `Math.round(x*100)/100` is the unique whole number of cents in (x - 0.005, x + 0.005], and it is non-negative for non-negative x |
| Money.Round2OfCents | controllers/portfolioController.js:107-112 | an amount already in cents is left unchanged by rounding |
| Money.Round2Idempotent | controllers/portfolioController.js:107-112 | rounding an already rounded amount changes nothing |
| Money.Round2ShiftByCents | controllers/portfolioController.js:260-264 | adding whole cents commutes with rounding, so a stored cost basis moves by exactly the rounded trade cost |
| Money.Round2Monotone | controllers/portfolioController.js:107-112 | rounding preserves the order of two amounts |
| Money.CentsAdd | controllers/portfolioController.js:94-101 | two amounts in whole cents add up to whole cents |
| Text.SkipSpaces | controllers/portfolioController.js:16 | returns the first non-white-space position at or after `from`, with only white space before it |
| Text.ContentEnd | controllers/portfolioController.js:16 | returns the end of the content before `to`, with only white space after it |
| Text.Trim | controllers/portfolioController.js:16 | `trim()` drops only white space at both ends, leaves a slice that neither starts nor ends with white space, and is empty exactly when the string is all white space |
| Text.ToUpper | controllers/portfolioController.js:222 | `toUpperCase()` keeps the length, turns each lower-case ASCII letter into its capital (code point minus 32) and keeps every other character |
| Text.ToUpperIdempotent | models/Portfolio.js:7 | upper-casing twice is upper-casing once |
| Text.Normalize | models/Portfolio.js:4-9 | the form the `uppercase` and `trim` setters store: `NormalizeIsNormal`, `NormalIsFixed`, `NormalizeIdempotent` and `NormalizeNonEmpty` prove it has no lower-case letter and no surrounding white space, is a fixed point, and is empty exactly for a blank symbol |
| Text.NormalizeIsNormal | models/Portfolio.js:4-9 | the stored form of a symbol (upper-cased, then trimmed) has no lower-case letter and no surrounding white space |
| Text.NormalIsFixed | models/Portfolio.js:4-9 | a symbol already in stored form is stored unchanged |
| Text.NormalizeIdempotent | models/Portfolio.js:4-9 | storing a stored symbol again changes nothing |
| Text.NormalizeNonEmpty | models/Portfolio.js:4-9 | the stored form is non-empty exactly when the symbol is not blank |
| Validation.ErrorList | controllers/portfolioController.js:14-28 | the error list has one message per failed check, at most three, in check order, and is empty exactly when no check failed |
| Validation.ValidateStockInput | controllers/portfolioController.js:13-29 | empty exactly when the symbol is a non-blank string and quantity and price are positive numbers; each message appears exactly when its check fails; messages come in the order symbol, quantity, price |
| Pricing.FallbackPrice | controllers/portfolioController.js:78-88 | a listed symbol gets exactly its own table price, any other symbol 100; always positive |
| Pricing.CurrentPrice | controllers/portfolioController.js:59-90 | the first usable field of the feed's reply (`price`, `currentPrice`, `data.price`); 100 for a reply with none; the fallback table only when the request fails; positive whenever the feed's prices are |
| Pricing.FallbackDeterministic | controllers/portfolioController.js:78-88 | with the feed down, AAPL is 150.25, NVDA is 225.30 and an unlisted symbol is 100, every time |
| Records.CastHolding | models/Portfolio.js:3-38 | casting a holding normalises the symbol and defaults the profit fields to 0; it passes the schema exactly when the symbol is not blank and quantity, average price and amount invested are at least 0 |
| Records.TxTypeNameInjective | models/Transaction.js:10-14 | a transaction type is stored as exactly "BUY" or "SELL", and distinct types have distinct names |
| Records.NewTransaction | controllers/portfolioController.js:116-134 | the record `addTransaction` builds has the user, type and amounts given and the stored form of the symbol; it passes the schema exactly when the symbol is not blank and quantity, price and total are at least 0 |
| Records.UpperCasedTransaction | controllers/portfolioController.js:121 | upper-casing the symbol before `addTransaction` gives the same record |
| Records.EmptyPortfolio | models/Portfolio.js:40-70 | a new portfolio has no holdings and every aggregate at 0 |
| Records.InsertPortfolio | models/Portfolio.js:72 | the unique index refuses a portfolio for an owner that already has one, appends otherwise, and so keeps one portfolio per user (a stand-alone model of the index; the ledger holds only the signed-in user's portfolio) |
| Records.FindPortfolio | controllers/portfolioController.js:141-142 | `findOne({ userId })` finds nothing exactly when the user has no portfolio, and otherwise finds the user's only one (stand-alone, over the store of `InsertPortfolio`) |
| Valuation.Sum | controllers/portfolioController.js:94-101 | the `reduce` fold of one field over the holdings: `SumConcat`, `SumUpdate`, `SumRemove` and `SumPermutation` prove it splits over concatenation, moves by a replaced or removed holding's field, and ignores order |
| Valuation.SumConcat | controllers/portfolioController.js:94-101 | a field summed over two concatenated lists is the sum of the two sums |
| Valuation.SumAppend | controllers/portfolioController.js:266-275 | pushing a holding adds its field to the sum |
| Valuation.SumSplit | controllers/portfolioController.js:94-101 | a sum splits at any position |
| Valuation.SumFirst | controllers/portfolioController.js:94-101 | a non-empty suffix sums to its first field plus the rest |
| Valuation.SumUpdate | controllers/portfolioController.js:396-401 | replacing a holding in place changes the sum by the difference of that holding's field |
| Valuation.SumRemove | controllers/portfolioController.js:391 | splicing a holding out takes its field out of the sum |
| Valuation.MultisetRemove | controllers/portfolioController.js:391 | splicing out position j removes one occurrence of that holding |
| Valuation.SumPermutation | controllers/portfolioController.js:94-101 | the sum does not depend on the order of the holdings |
| Valuation.SumNonNegative | controllers/portfolioController.js:94-101 | non-negative fields give a non-negative sum |
| Valuation.SumCents | controllers/portfolioController.js:94-101 | fields in whole cents sum to whole cents |
| Valuation.Percentage | controllers/portfolioController.js:104-105 | 0 when nothing is invested; otherwise the percentage times the amount invested is 100 times the part |
| Valuation.CalculatePortfolioTotals | controllers/portfolioController.js:93-113 | all zeros for no holdings; every total in cents; invested, value and profit within half a cent of the summed amount invested, the summed value and their difference; the percentage within half a cent of that difference over the amount invested times 100, and 0 when nothing is invested; profit not negative when value covers the amount invested |
| Valuation.TotalsIgnoreOrder | controllers/portfolioController.js:93-113 | the totals of two orderings of the same holdings are equal |
| Valuation.TotalsInvestedNonNegative | controllers/portfolioController.js:93-113 | non-negative amounts invested give a non-negative total invested |
| Valuation.MarketValue | controllers/portfolioController.js:161-170 | the refreshed current value is within half a cent of price times quantity, in cents |
| Valuation.ProfitLoss | controllers/portfolioController.js:162-171 | the refreshed profit is within half a cent of value minus amount invested, in cents |
| Valuation.ProfitLossPercentage | controllers/portfolioController.js:163-172 | the refreshed percentage is in cents, within half a cent of (value minus amount invested) over amount invested times 100, and 0 when nothing is invested |
| Valuation.Revalue | controllers/portfolioController.js:158-174 | a refreshed holding keeps symbol, quantity, average price and amount invested, and recomputes value, profit and percentage at the new price |
| Valuation.RevalueAll | controllers/portfolioController.js:158-174 | every holding is refreshed in place at the oracle's price for its symbol |
| Valuation.RevalueIdempotent | controllers/portfolioController.js:158-174 | refreshing a holding twice at one price is refreshing it once |
| Valuation.RevalueAllIdempotent | controllers/portfolioController.js:158-174 | refreshing all holdings twice at the same prices is refreshing them once |
| Ledger.IndexOf | controllers/portfolioController.js:251-253 | `findIndex` returns -1 exactly when the symbol is not held, and otherwise the first position holding it |
| Ledger.IndexOfUnique | controllers/portfolioController.js:251-253 | with unique symbols, the lookup finds the one position holding the symbol |
| Ledger.TradeValue | controllers/portfolioController.js:223 | `quantity * price`, the cost of a buy (and, at :378, the value of a sell); it is what the balance moves by (`BuyOrder`, `SellOrder`) and what each record carries (`LedgerLaws.EntryRecorded`) |
| Ledger.MergeBuy | controllers/portfolioController.js:255-268 | the average-cost merge into a held position: `LedgerLaws.MergeBuyLive` proves it live with the quantities added, `MergeBuyInvested` that the amount invested grows by exactly the rounded cost, `MergeBuyMean` and `MergeBuyAverage` that the new average is the rounded new amount invested per unit and lies between the old amount invested per unit and the trade price |
| Ledger.OpenHolding | controllers/portfolioController.js:270-278 | the holding pushed for an unheld symbol: `LedgerLaws.OpenHoldingLive` proves it live, keyed by the stored symbol, with the trade's quantity and price as average and the rounded cost as amount invested |
| Ledger.BuyHoldings | controllers/portfolioController.js:250-278 | a held symbol's holding is merged in place, leaving the length the same; otherwise exactly one holding is appended |
| Ledger.ReduceHolding | controllers/portfolioController.js:393-401 | the partial-sell update: `LedgerLaws.ReduceHoldingLive` proves it keeps symbol and average price, lowers the quantity by exactly the amount sold and keeps the amount invested in cents within half a cent of the amount invested per unit times the units left |
| Ledger.SellHoldings | controllers/portfolioController.js:389-402 | splice when nothing remains, else reduce in place: `LedgerLaws.SellHoldingsKeepInvariant`, `SellLeavesOthers` and `SellCostBasis` prove the invariant is kept, the other holdings are untouched and in order, and the summed amount invested drops by the removed or reduced amount |
| Ledger.Wf | controllers/portfolioController.js:203-435 | the ledger invariant: balance not negative, the portfolio's holdings live and uniquely keyed with cached totals equal to `calculatePortfolioTotals`, every log record a schema-valid trade of the user carrying quantity times price; `LedgerLaws.Apply` and `LedgerLaws.Run` prove every request keeps it |
| Ledger.NewLedger | models/User.js:27 | a new user (balance 0, no portfolio, no trades) satisfies the ledger invariant |
| Ledger.ParseOrder | controllers/portfolioController.js:212-220 | a request is refused with the validation messages exactly when there are any; otherwise the order carries the request's own string and numbers |
| Ledger.BuyOrder | controllers/portfolioController.js:222-309 | refused with nothing changed exactly when the balance is below quantity times price; otherwise debits exactly the cost, applies the holding update under the stored symbol, appends one BUY record for the cost, recomputes the totals and replies with the balance rounded to cents |
| Ledger.Buy | controllers/portfolioController.js:203-318 | invalid input is refused with its messages and nothing changes; a valid request is the buy of its order |
| Ledger.SellOrder | controllers/portfolioController.js:336-426 | a refusal changes nothing; an accepted sell has a held symbol with enough shares, credits exactly the sale value, applies the sell update to that holding, appends one SELL record, recomputes the totals and replies with the balance rounded to cents |
| Ledger.Sell | controllers/portfolioController.js:321-435 | invalid input is refused with its messages and nothing changes; a valid request is the sell of its order |
| Ledger.Deposit | controllers/portfolioController.js:626-653 | a non-positive amount is refused with nothing changed; otherwise the balance grows by exactly the amount and the reply is the new balance |
| Ledger.Withdraw | controllers/portfolioController.js:656-695 | refused as invalid exactly when the amount is not positive, and as insufficient exactly when it exceeds the balance; otherwise the balance shrinks by exactly the amount and stays non-negative |
| Ledger.Refresh | controllers/portfolioController.js:137-186 | balance and log are untouched; the portfolio exists afterwards; its holdings are exactly every old holding revalued at the oracle's price for its symbol, so each keeps symbol, quantity, average price and amount invested; the totals match the refreshed holdings |
| LedgerLaws.ReplaceKeepsInvariant | controllers/portfolioController.js:262 | replacing a holding by a live one of the same symbol keeps the holdings live and uniquely keyed |
| LedgerLaws.AppendKeepsInvariant | controllers/portfolioController.js:271 | pushing a live holding for an unheld symbol keeps the holdings live and uniquely keyed |
| LedgerLaws.RemoveKeepsInvariant | controllers/portfolioController.js:391 | splicing a holding out keeps the rest live and uniquely keyed, shortens the list by one and leaves its symbol unheld |
| LedgerLaws.CastHoldingLive | models/Portfolio.js:3-38 | a holding cast from a non-blank symbol, a positive quantity and non-negative amounts in cents is live |
| LedgerLaws.KeyIsStored | models/Portfolio.js:4-9 | the lookup key of a valid order is a valid stored symbol and is its own stored form |
| LedgerLaws.OpenHoldingLive | controllers/portfolioController.js:266-275 | a new holding is live, keyed by the stored symbol, with the trade's quantity and price and the rounded cost as amount invested |
| LedgerLaws.MergeBuyLive | controllers/portfolioController.js:255-265 | the merged holding stays live, keeps its symbol and holds the old quantity plus the trade's |
| LedgerLaws.BuyHoldingsKeepInvariant | controllers/portfolioController.js:250-278 | a buy keeps every holding live and the symbols unique, and the bought symbol is held afterwards |
| LedgerLaws.MergeBuyInvested | controllers/portfolioController.js:257-263 | merging a buy adds exactly the rounded trade cost to the amount invested |
| LedgerLaws.BuyCostBasis | controllers/portfolioController.js:250-278 | a buy raises the portfolio's summed amount invested by exactly the rounded trade cost |
| LedgerLaws.MergeBuyAverage | controllers/portfolioController.js:257-262 | for any held position, the new average price lies between the rounded amount invested per unit before the buy and the rounded trade price |
| LedgerLaws.MergeMeanBetween | controllers/portfolioController.js:258-259 | before rounding, the merged average lies between the amount invested per unit and the trade price |
| LedgerLaws.RepeatBuyMovesAverage | controllers/portfolioController.js:255-275 | buying 0.1 units at 0.05 twice stores an average of 0.05 and 0.01 invested after the first buy, and an average of 0.08 after the second: the stored amount invested is rounded, so a repeat buy at the same price can move the average |
| LedgerLaws.MergeBuyMean | controllers/portfolioController.js:259-262 | the new average price is the new amount invested over the new quantity, rounded to cents |
| LedgerLaws.WeightedMeanBetween | controllers/portfolioController.js:259 | a quantity-weighted mean of two prices lies between them |
| LedgerLaws.AverageCostExample | controllers/portfolioController.js:250-278 | buying 10 at 100 and then 10 at 200 leaves 20 shares at an average of 150 with 3000 invested |
| LedgerLaws.FirstPurchase | controllers/portfolioController.js:266-275 | the first buy of a symbol opens one holding at the trade's price and cost |
| LedgerLaws.ReduceHoldingLive | controllers/portfolioController.js:393-401 | a partial sell keeps symbol and average price, lowers the quantity by exactly the amount sold and keeps the amount invested within half a cent of per-unit cost times units left |
| LedgerLaws.SellHoldingsKeepInvariant | controllers/portfolioController.js:389-402 | a sell keeps the holdings live and uniquely keyed; selling everything removes the symbol, and a partial sell reduces the quantity in place |
| LedgerLaws.SellLeavesOthers | controllers/portfolioController.js:389-402 | every other holding keeps its value and relative order |
| LedgerLaws.SellCostBasis | controllers/portfolioController.js:389-402 | a full sell removes the holding's whole amount invested from the sum; a partial sell replaces it by the reduced amount |
| LedgerLaws.ProportionalSellExample | controllers/portfolioController.js:394-399 | selling 10 of 20 shares with 3000 invested leaves 10 shares with 1500 invested at an average of 150 |
| LedgerLaws.EntrySchema | models/Transaction.js:4-42 | the record of a valid trade passes the transaction schema |
| LedgerLaws.EntryRecorded | controllers/portfolioController.js:116-134 | the record of a valid trade passes the schema, belongs to the user and carries quantity times price |
| LedgerLaws.BuyOrderKeepsWf | controllers/portfolioController.js:222-293 | a validated buy, accepted or refused, keeps the ledger invariant |
| LedgerLaws.SellOrderKeepsWf | controllers/portfolioController.js:336-410 | a validated sell, accepted or refused, keeps the ledger invariant |
| LedgerLaws.BuyKeepsWf | controllers/portfolioController.js:203-318 | `buyStock` keeps the ledger invariant whatever the request, so the balance never goes negative |
| LedgerLaws.SellKeepsWf | controllers/portfolioController.js:321-435 | `sellStock` keeps the ledger invariant whatever the request |
| LedgerLaws.CashKeepsWf | controllers/portfolioController.js:626-695 | deposits and withdrawals keep the ledger invariant, so no withdrawal makes the balance negative |
| LedgerLaws.RefreshKeepsWf | controllers/portfolioController.js:137-186 | `getPortfolio`'s refresh keeps the ledger invariant |
| LedgerLaws.RefreshIdempotent | controllers/portfolioController.js:158-183 | refreshing twice at the same prices stores the same portfolio as refreshing once |
| LedgerLaws.Apply | controllers/portfolioController.js:137-695 | any single request keeps the ledger invariant |
| LedgerLaws.Run | controllers/portfolioController.js:137-695 | any sequence of requests keeps the ledger invariant |
| LedgerLaws.CashFlow | controllers/portfolioController.js:281-383 | what a record did to the balance: a BUY took its amount out (:281), a SELL put it in (:383); `TradeConserves` proves each accepted trade moves the balance by exactly this |
| LedgerLaws.NetCashFlow | controllers/portfolioController.js:281-383 | the summed cash flow of a log: `NetCashFlowAppend` proves it additive and `RunConserves` that over any trade sequence the balance changes by exactly the net cash flow the log gained |
| LedgerLaws.NetCashFlowAppend | controllers/portfolioController.js:281-285 | a new record adds its own cash flow to the log's net cash flow |
| LedgerLaws.TradeConserves | controllers/portfolioController.js:281-387 | a trade appends at most one record, and the balance moves by exactly that record's cash flow (minus for BUY, plus for SELL) |
| LedgerLaws.NonTradeKeepsLog | controllers/portfolioController.js:626-695 | cash requests and refreshes leave the log alone |
| LedgerLaws.ApplyExtendsLog | controllers/portfolioController.js:116-134 | one request keeps the old log as a prefix of the new one |
| LedgerLaws.RunExtendsLog | controllers/portfolioController.js:116-134 | the log only grows: after any sequence of requests the earlier log is a prefix |
| LedgerLaws.RunConserves | controllers/portfolioController.js:281-387 | over any sequence of trades, accepted or refused, the balance changes by exactly the sale values minus the purchase costs the log gained |
| LedgerLaws.BuyIsBuyOrder | controllers/portfolioController.js:212-223 | a buy request that passes validation is the buy of the order it carries |
| LedgerLaws.BuyRefused | controllers/portfolioController.js:226-235 | a valid buy the balance does not cover is refused with the cost and the balance, and changes nothing |
| LedgerLaws.BuyOrderAccepted | controllers/portfolioController.js:250-309 | an affordable buy debits the cost, stores the updated holdings with their totals, appends the BUY record and replies with the rounded new balance |
| LedgerLaws.BuyAccepted | controllers/portfolioController.js:203-318 | an affordable valid buy request yields exactly that ledger and reply |
| LedgerLaws.SellOrderOutcomes | controllers/portfolioController.js:343-376 | a valid sell fails as "portfolio not found" exactly when there is none, as "not held" exactly when the symbol is not held, as "insufficient quantity" exactly when the holding is too small, and succeeds otherwise |
| LedgerLaws.SellIsSellOrder | controllers/portfolioController.js:336-340 | a sell request that passes validation is the sell of the order it carries |
| LedgerLaws.SellRefused | controllers/portfolioController.js:343-376 | each of the three sell refusals returns its own error and changes nothing |
| LedgerLaws.SellOrderSucceeds | controllers/portfolioController.js:365-376 | a sell whose holding covers the quantity goes through |
| LedgerLaws.SellOrderAccepted | controllers/portfolioController.js:378-426 | a covered sell credits the sale value, stores the updated holdings with their totals, appends the SELL record and replies with the rounded new balance |
| LedgerLaws.SellAccepted | controllers/portfolioController.js:321-435 | a covered valid sell request yields exactly that ledger and reply |
| History.Matches | controllers/portfolioController.js:443-446 | the filter: the user, the upper-cased type and the symbol in stored form; `Select` and `SelectMultiplicity` prove the query returns exactly the matching records with their multiplicity |
| History.Select | controllers/portfolioController.js:443-448 | `find(filter)` returns exactly the log's records that match the user, the upper-cased type and the symbol in stored form (upper-cased and trimmed by the schema setters) |
| History.SelectMultiplicity | controllers/portfolioController.js:443-454 | each matching record is selected as often as it occurs in the log and no other record is selected, so the count is the number of matching records |
| History.NewestFirst | controllers/portfolioController.js:449 | newest first is the log order reversed, with the same records |
| History.Window | controllers/portfolioController.js:450-451 | skip, then at most the magnitude of the limit (0 meaning no limit); the records shown are consecutive records of the sorted list |
| History.CeilDiv | controllers/portfolioController.js:462 | `Math.ceil(n / d)` for either sign of d |
| History.Paginate | controllers/portfolioController.js:460-466 | the page and the count are echoed; total pages is null exactly when the limit is 0; `hasNext` is page times limit below the count; `hasPrev` is page above 1 |
| History.PageOf | controllers/portfolioController.js:441 | the page number, 1 when absent; `TransactionHistory` refuses exactly the pages whose skip is negative |
| History.LimitOf | controllers/portfolioController.js:441 | the page size, 20 when absent; `PageContents` proves a page holds at most that many records |
| History.TransactionHistory | controllers/portfolioController.js:438-466 | refused exactly when the skip is negative; otherwise only matching records of the log are shown and the pagination is computed from the match count |
| History.HasNextBeforeLastPage | controllers/portfolioController.js:462-464 | with a positive limit, `hasNext` holds exactly when the page is below the page count |
| History.HasNextIffMoreRecords | controllers/portfolioController.js:448-465 | for positive page and limit, `hasNext` holds exactly when matching records remain beyond the page, and `hasPrev` exactly when some were skipped |
| History.PageContents | controllers/portfolioController.js:448-451 | a page holds exactly the newest-first matches from position (page - 1) times limit on, as many as remain but at most `limit` |
| History.CountSplitsByType | controllers/portfolioController.js:443-454 | with no type filter the count is the BUY count plus the SELL count |
| History.TypeNamesAreUpper | controllers/portfolioController.js:445 | "BUY" and "SELL" upper-case to themselves |
| Findings.BuyHoldingsAsWritten | controllers/portfolioController.js:222-253 | the buy's holding update with the untrimmed upper-case lookup key either merges in place or appends one holding |
| Findings.ApplePosition | models/Portfolio.js:3-38 | the sample holding is live |
| Findings.SampleSymbolForms | controllers/portfolioController.js:222 | "aapl " upper-cases to "AAPL " and is stored as "AAPL" |
| Findings.BuyAsWrittenDuplicatesSymbol | controllers/portfolioController.js:222-253 | with the lookup as written, buying "aapl " while "AAPL" is held leaves the symbol held twice |
| Findings.SellAsWrittenMissesHolding | controllers/portfolioController.js:338-363 | with the lookup as written, selling "aapl " while "AAPL" is held does not find the holding |
| Findings.LookupByStoredFormFinds | controllers/portfolioController.js:353-355 | looking up by the stored form finds the holding the order names |
| Controller.Account.constructor | models/User.js:27 | a new user's balance is 0 |
| Controller.Portfolio.constructor | controllers/portfolioController.js:240-247 | a new portfolio belongs to its owner, has no holdings and every aggregate is 0 |
| Controller.Portfolio.AbsorbBuy | controllers/portfolioController.js:250-278 | the in-place holding update of a buy equals `BuyHoldings` on the old holdings |
| Controller.Portfolio.ReleaseSell | controllers/portfolioController.js:389-402 | the in-place splice or update of a sell equals `SellHoldings` on the old holdings |
| Controller.Portfolio.UpdateTotals | controllers/portfolioController.js:288-292 | the four aggregate fields become the totals of the current holdings, and the holdings are not changed |
| Controller.TransactionLog.constructor | models/Transaction.js:4-42 | the log starts empty |
| Controller.TransactionLog.AddTransaction | controllers/portfolioController.js:116-134 | appends exactly the record `addTransaction` builds |
| Controller.PortfolioController.constructor | models/User.js:27 | a new user's documents are the new ledger, which satisfies the invariant |
| Controller.PortfolioController.BuyStock | controllers/portfolioController.js:203-318 | keeps the invariant; the documents afterwards and the reply are exactly those of `Ledger.Buy` |
| Controller.PortfolioController.OpenPortfolio | controllers/portfolioController.js:238-248 | the user's portfolio afterwards is the one found, or a fresh empty one |
| Controller.PortfolioController.SettleBuy | controllers/portfolioController.js:250-309 | debits the cost, appends the BUY record, stores the updated holdings with their totals and builds the reply with the rounded balance |
| Controller.PortfolioController.SellStock | controllers/portfolioController.js:321-435 | keeps the invariant; the documents afterwards and the reply are exactly those of `Ledger.Sell` |
| Controller.PortfolioController.LocateSale | controllers/portfolioController.js:327-376 | a refusal is the one `Ledger.Sell` gives; otherwise it returns the order and the position of a holding that covers it |
| Controller.PortfolioController.SettleSale | controllers/portfolioController.js:378-426 | credits the sale value, appends the SELL record, stores the updated holdings with their totals and builds the reply with the rounded balance |
| Controller.PortfolioController.AddMoney | controllers/portfolioController.js:626-653 | keeps the invariant; the documents afterwards and the reply are exactly those of `Ledger.Deposit` |
| Controller.PortfolioController.WithdrawMoney | controllers/portfolioController.js:656-695 | keeps the invariant; the documents afterwards and the reply are exactly those of `Ledger.Withdraw` |
| Controller.PortfolioController.GetPortfolio | controllers/portfolioController.js:137-200 | keeps the invariant; the documents afterwards are those of `Ledger.Refresh`, and the reply is the refreshed holdings |

## Left out

- **The price feed's HTTP request** (controllers/portfolioController.js:61). The
  feed's reply is an input to `Pricing.CurrentPrice`, and the trade handlers take
  the resulting price as a parameter.
- **Price fallback for a reply without a price.** For a reply without a price
  field the code returns a fixed 100 (controllers/portfolioController.js:64-73),
  not the table price; the model does the same.
- **When the sell handler asks for a price.** It asks the oracle only on a partial
  sell (:400). The model takes the quote as a parameter in every case, and a full
  sell does not use it.
- **Sessions, persistence and concurrency.** Database sessions, commits and aborts
  are reduced to "a refusal returns the old ledger". Concurrent requests, locking
  and storage failures are left out.
- **Timestamps.** `timestamp`, `createdAt`, `updatedAt` and `lastUpdated` need a
  clock and are left out.
- **Ties in the newest-first order.** The model assumes each record gets a later
  timestamp than the one before, so the newest-first order is the log reversed.
- **Express plumbing.** Status codes, response messages, `handleApiError` and the
  `populate` of the user are left out.
- **Floating point.** Exact reals stand in for binary doubles, so any rounding
  error between a double and the rounded result is not captured.
- **Infinite numbers.** The JSON body parser turns a literal too large for a double
  (such as `1e400`) into `Infinity`, which `validateStockInput` rejects only through
  `Number.isFinite` (controllers/portfolioController.js:22-27). A real cannot be
  infinite, so `Validation.ValidateStockInput` never sees that input. Products and
  balances that overflow to `Infinity` are not modelled either.
- **Text.ToUpper** covers ASCII letters only. The upper-casing of other scripts
  and its length changes (`'ß'` to `"SS"`) are not modelled.
- **Non-numeric amounts.** `addMoney` and `withdrawMoney` take numeric amounts.
  Their guard `!amount || amount <= 0` (controllers/portfolioController.js:630 and
  :660) also lets through `true`, which the arithmetic takes as 1, and strings,
  non-empty arrays and objects, which `addMoney`'s `+=` concatenates onto the
  balance. None of these is modelled.
- **Non-numeric or fractional query values.** The history query takes `page` and
  `limit` as whole numbers.
- **The `currentPrice` field.** `getPortfolio` adds it to each holding in its
  reply. It is not a schema field, so it is not stored and is not modelled.
- **Handlers outside the ledger.** `getPortfolioAnalytics`, `getHoldingDetails`
  (whose percentage at :579 divides by `totalInvested` unguarded) and
  `getUserBalance` are read-only reports.
- **Ledger.BuyOrder** and **Ledger.SellOrder** look the holding up by the
  symbol's stored form, not by `symbol.toUpperCase()` as the source does
  (controllers/portfolioController.js:251-253 and :353-355). They differ only for a
  symbol sent with surrounding white space; the row under "Findings" models the
  source's lookup and what it does then.
- **History.Select** compares the symbol in stored form because the database layer
  casts query filters through the schema's `uppercase` and `trim` setters, as
  Mongoose does from version 5 on. Older Mongoose versions, which compare the
  filter untrimmed, are not modelled.
- **LedgerLaws.MergeBuyAverage** bounds the new average by the amount invested per
  unit, not by the stored average price. The two differ once the amount invested
  has been rounded, and `LedgerLaws.RepeatBuyMovesAverage` shows a repeat buy at
  the same price moving the stored average. The model proves no bound in terms of
  the stored average.
- **The portfolio store.** `Records.InsertPortfolio` and `Records.FindPortfolio`
  model the unique owner index on their own. The ledger and the controller keep
  only the signed-in user's portfolio, so they do not go through that store.
- **Other files.** The user controller (hashing, tokens, random names), the routes
  and the server start-up are outside the ledger. Of models/User.js only the
  balance and its default of 0 are modelled.

## Findings

| source | as written | input that shows it | evidently intended | confidence | as-written member | corrected member |
|---|---|---|---|---|---|---|
| controllers/portfolioController.js:222-253 | the buy looks the holding up by `symbol.toUpperCase()`, but the schema stores holding symbols upper-cased and trimmed, and validation accepts a symbol with surrounding spaces | holdings `[AAPL]`, then a buy of `"aapl "`: the lookup for `"AAPL "` misses, and a second holding stored as `"AAPL"` is pushed (a sell of `"aapl "` likewise reports the stock as not held) | look the holding up by the stored form (trimmed and upper-cased), so that symbols stay unique | not executed | Findings.BuyAsWrittenDuplicatesSymbol | LedgerLaws.BuyHoldingsKeepInvariant |
