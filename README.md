# Interactive investment simulator, modelled in Dafny

This project models the core of a single-file Go program, `no2.go`. The program simulates an investor who trades three asset classes: S&P 500 stocks, two commodities and ten cryptocurrencies. The investor starts with cash, buys and sells positions at catalog prices, and advances a simulated clock. Each advance moves every catalog price by a clamped random step, revalues the positions, records the portfolio value in a history, and reports the significant price movements: up to three stocks that moved more than 2%, then cryptocurrencies that moved more than 5%, six names at most, each in catalog order.

The modules follow the program's parts:

- `Catalog`: the quote lists, their seed data and the cross-class name lookup.
- `PriceModel`: the deterministic arithmetic of one price step of one asset. The random draws are parameters. The step applies the minimum movement, the crypto noise, the class clamp, rounding, the 0.01 floor and the daily change.
- `Simulator`: class `Market`, which owns the three catalog arrays. Its `SimulatePriceChange` rewrites them in place, and `CurrentPrice` is the three-scan price lookup.
- `Accounts`: the ledger as values. It holds `Buy`, `Sell`, the revaluation `RefreshAll`, total value, and profit and return.
- `History`: the all-time-high (ATH) rule, the return on investment (ROI), and appending one record.
- `TimeStep`: the interval table and the day counter.
- `Movements`: the "major price movements" selection, as a list of names.
- `Investor`: class `Portfolio`, with the cash, the position map, the day counter, the clock offset, the ATH and the history. Its methods `BuyAsset`, `SellAsset`, `UpdatePortfolioNAV`, `TrackDailyHistory` and `AdvanceTime` update the object in place. Each method is proved equal to the value-level function of `Accounts` or `History` that specifies it.
- `Arith` and `Wrappers`: small arithmetic facts and an `Option` type.

The definitions the contracts below are stated over, with the source lines each one models:

- `PriceModel.RandomPriceChange` (no2.go:80-88): the standard-normal draw times volatility times the interval factor.
- `PriceModel.Sentiment` and `PriceModel.SentimentVolatility` (no2.go:97-99): the class-wide sentiment draw.
- `PriceModel.MinMoveThreshold` (no2.go:103-111): the minimum move, volatility × 0.3 × factor.
- `PriceModel.MaxMove` (no2.go:121-186): the class caps.
- `PriceModel.CryptoNoise` (no2.go:182-183): the crypto noise term.
- `PriceModel.RoundPrice` (no2.go:197-201): the rounding rule by class and price.
- `Catalog.PriceOr` and `Catalog.CatalogPrice` (no2.go:214-238): one scan loop, and the three scans that overwrite each other.
- `Accounts.SumNAV`, `Accounts.TotalNAV` and `Accounts.TotalValue` (no2.go:389-392, 510-513): cash plus every row's NAV.
- `Accounts.ProfitLoss` (no2.go:407): NAV minus cost basis.
- `History.AthAfter` (no2.go:515-518): the ATH after a run of records.
- `Movements.Significant` and `Movements.Report` (no2.go:276-317): the names past a threshold in catalog order, and the capped report.

Money is modelled as `real`, and float arithmetic is taken as exact. `math.Round` is modelled as exact half-away-from-zero rounding.

## Model

| member | source | states |
|---|---|---|
| TimeStep.DaysElapsed | no2.go:252-255 | The day increment is at least 1. From 24 hours on, it is the number of whole days the interval spans; below 24 hours it is 1. |
| TimeStep.DaysElapsedMonotonic | no2.go:252-255 | A longer interval never advances the day counter by fewer days. |
| TimeStep.IntervalTableDays | no2.go:40-46 | The five table intervals advance the counter by 1, 1, 1, 7 and 30 days, and every factor is positive. |
| Catalog.SeedFloored | no2.go:48-77 | Every seed price of all three lists is at least 0.01. |
| Catalog.PriceOrFound | no2.go:217-222 | One scan loop keeps the price found so far exactly when its list lacks the name. Otherwise it yields the price of a listed entry with that name. |
| Catalog.PriceOrFirst | no2.go:217-222 | The scan breaks at the first entry that carries the name. |
| Catalog.CatalogPriceFound | no2.go:214-238 | On a catalog whose prices are all at least 0.01, the lookup is positive exactly when some class lists the name. A positive result is at least 0.01; an unlisted name yields 0. |
| Catalog.CatalogPriceCryptoWins | no2.go:214-238 | A cryptocurrency listing overrides a stock or commodity listing of the same name, because the later scan overwrites the earlier one. |
| PriceModel.EnforceMinMove | no2.go:111-118 | A change at or above the threshold is kept. A smaller one is replaced by threshold × (0.5 + u): positive exactly when the candidate was positive, never zero. |
| PriceModel.MinMoveMagnitude | no2.go:111-118 | After enforcement the move is at least half the threshold. A forced replacement is below 1.5 times the threshold. |
| PriceModel.MaxMoveNonNegative | no2.go:121-186 | Each class cap is non-negative for non-negative volatility and factor. |
| PriceModel.Clamp | no2.go:122-126 | The result lies in [-bound, bound]. A change already inside is kept, one above the bound becomes the bound, and one below -bound becomes -bound. |
| PriceModel.ClampNearest | no2.go:122-126 | The clamped value is the point of the band nearest the change. |
| PriceModel.ClampIdempotent | no2.go:122-126 | Clamping twice is the same as clamping once. |
| PriceModel.StepChange | no2.go:106-126 | The applied change never exceeds the class cap in magnitude. |
| PriceModel.StepChangeBounds | no2.go:121-191 | The applied change is within ±0.05·f for stocks, ±0.03·f for commodities and ±2·vol·f for cryptocurrencies. |
| PriceModel.RoundHalfAway | no2.go:130 | The rounded integer is within one half of the value and is non-negative for non-negative values. |
| PriceModel.RoundHalfAwayAtLeast | no2.go:130 | Rounding never falls below an integer the value has already reached. |
| PriceModel.RoundCents | no2.go:130-200 | Rounding to two decimals moves a value by at most 0.005. |
| PriceModel.RoundBasisPoints | no2.go:198 | Rounding to four decimals moves a value by at most 0.00005. |
| PriceModel.RoundPriceClose | no2.go:197-201 | Rounding a price of at least 0.01 (four decimals for a crypto under 1, else two) keeps it at least 0.01 and moves it by at most half a cent. |
| PriceModel.NextPrice | no2.go:128-133 | Every new price is at least 0.01. |
| PriceModel.NextPriceClose | no2.go:129-133 | When the raw product old price × (1 + change) is at least 0.01, the new price is within half a cent of it. |
| PriceModel.NextPriceBounded | no2.go:128-133 | A change bounded by m moves the price by at most m × the old price plus half a cent, unless the move could reach the floor. |
| PriceModel.Repriced | no2.go:128-134 | The new entry keeps its name and volatility. Its daily change times the old price is the price difference, so the division is defined. |
| PriceModel.ApplyChange | no2.go:128-134 | Applying a change keeps name and volatility, sets the price that NextPrice gives, and sets a daily change that, times the old price, is the price difference. |
| PriceModel.StepQuote | no2.go:106-134 | One step keeps the entry's name and volatility, leaves its price at least 0.01, and records the daily change against the old price, which the movement report reads. |
| PriceModel.StepQuoteBounded | no2.go:106-133 | One step moves a price by at most its class cap times the old price, plus half a cent of rounding, whenever a full-cap fall could not reach the 0.01 floor. |
| PriceModel.StepAll | no2.go:106-135 | Stepping a floored list keeps its length and names, and the list stays floored. |
| PriceModel.StepAllAt | no2.go:106-135 | Entry i of the stepped list is entry i stepped with its own draw. |
| Simulator.StepClass | no2.go:106-135 | The in-place class loop leaves the array equal to the stepped list of its old contents, which stays floored. |
| Simulator.Market.constructor | no2.go:48-77 | The market starts with the seed lists in three distinct arrays. |
| Simulator.Market.SimulatePriceChange | no2.go:91-207 | Each class array becomes its old contents stepped under the class sentiment (0.01, 0.005, 0.02 volatility) and each asset's own draws. The catalog stays floored. |
| Simulator.ScanClass | no2.go:217-222 | The array scan returns what the first-match lookup PriceOr gives. |
| Simulator.Market.CurrentPrice | no2.go:214-238 | The lookup returns the catalog price over the three arrays in their current state. |
| Accounts.Buy | no2.go:325-343 | A buy is refused (InsufficientFunds) exactly when its cost exceeds the cash. Otherwise cash drops by exactly the cost and stays non-negative, and only row `name` changes. A held row grows in quantity and cost basis, with NAV from its own last price; a new row is opened at the trade price. |
| Accounts.Sell | no2.go:345-382 | A sell is refused (InsufficientHoldings) exactly when the name is absent or too few units are held. Otherwise cash rises by exactly quantity × price, the cost basis becomes T·(1 − q/held), and only row `name` changes. That row is deleted exactly when no unit remains. |
| Accounts.BuyKeepsOk | no2.go:332-340 | A buy of a positive quantity at a positive price keeps every row well-formed. |
| Accounts.SellKeepsOk | no2.go:364-378 | A sell keeps every row well-formed: positive quantity, non-negative cost basis, NAV = quantity × price. |
| Accounts.RemainingCostNonNegative | no2.go:354-367 | The cost basis left after a partial sell is non-negative. |
| Accounts.BuyThenSellRestores | no2.go:325-382 | Buying units of an asset not yet held, then selling them at the same price, restores the ledger exactly. |
| Accounts.ProportionalCostComposes | no2.go:354-367 | Removing the cost of a units and then b units proportionally equals removing a + b units at once. |
| Accounts.SellsCompose | no2.go:345-382 | Two successive sells of a and b units produce the same ledger as one sell of a + b units. |
| Accounts.SumNAVRemove | no2.go:510-513 | The NAV sum does not depend on the order in which rows are added. |
| Accounts.SumNAVAgree | no2.go:510-513 | Tables whose NAVs agree have equal sums. |
| Accounts.TotalNAVUpdate | no2.go:510-513 | Writing one row changes the total NAV by that row's NAV difference. |
| Accounts.BuyRowNav | no2.go:332-340 | A buy at the row's last price raises that row's NAV by exactly the trade cost. |
| Accounts.SellRowNav | no2.go:364-378 | A sell at the row's last price lowers that row's NAV by exactly the proceeds. |
| Accounts.NavAfterSell | no2.go:364-378 | A row's NAV splits into the NAV of the units kept and the proceeds of the units sold. |
| Accounts.BuyKeepsTotalValue | no2.go:325-343 | A buy at the row's own last price (or opening a new row) keeps cash + Σ NAV unchanged. |
| Accounts.SellKeepsTotalValue | no2.go:345-382 | A sell at the row's own last price keeps cash + Σ NAV unchanged. |
| Accounts.Revalue | no2.go:240-245 | A found positive price rewrites the row's price and NAV. Otherwise the row is unchanged. Name, quantity and cost basis always stay. |
| Accounts.RevalueIdempotent | no2.go:240-245 | Revaluing a row twice at one price is the same as revaluing it once. |
| Accounts.RefreshAll | no2.go:211-247 | The key set, names, quantities and cost bases are kept. A row with a positive found price gets that price and NAV = quantity × price; any other row is unchanged. |
| Accounts.RefreshAllListed | no2.go:211-247 | On a floored catalog, a row is revalued exactly when some class lists its name, at that price (at least 0.01); an unlisted row keeps its stale price and NAV. |
| Accounts.RefreshAllIdempotent | no2.go:508-509 | The second revaluation in TrackDailyHistory changes nothing. |
| Accounts.RefreshAllKeepsOk | no2.go:211-247 | Revaluation keeps every row well-formed. |
| Accounts.ReturnPct | no2.go:407-411 | With a positive cost basis, NAV = cost × (1 + return/100). The return is positive exactly when NAV exceeds the cost and zero exactly when they are equal. It is 0 when there is no positive cost basis. |
| History.NewAth | no2.go:515-518 | The new ATH is the larger of the old ATH and the total, so it never decreases. |
| History.AthAfterIsMaximum | no2.go:515-518 | Across any run of records the ATH is the maximum of its start and all recorded totals. |
| History.Roi | no2.go:519 | ROI × prior ATH = (total − prior ATH) × 100, and ROI is 0 when there is no prior ATH. |
| History.RoiAsWritten | no2.go:519 | As written, the ROI has no real value exactly when the prior ATH is 0. Otherwise it satisfies the same equation. |
| History.FirstRecordRoiUndefined | no2.go:519 | With the ATH still at its initial 0, the source's ROI is undefined and the corrected ROI is 0. |
| History.RoiAgreesWhereDefined | no2.go:519 | The corrected ROI equals the source's wherever the source's is defined. |
| History.RoiSignsNewHigh | no2.go:515-519 | Against a positive prior ATH, ROI > 0 exactly when a new ATH is set, ROI = 0 exactly when the total equals the ATH, and ROI < 0 exactly when it is below. |
| History.Record | no2.go:515-525 | The history grows by one entry, appended last, with the given day, total and ROI against the prior ATH. Earlier entries are untouched, and the ATH becomes NewAth. |
| History.RecordKeepsConsistent | no2.go:515-525 | Recording keeps every recorded value at most the ATH and keeps days non-decreasing. |
| Movements.SignificantMembers | no2.go:279-296 | A name is selected exactly when some entry with that name moved past the threshold. |
| Movements.SignificantPrefix | no2.go:279-292 | The selection over a prefix of the list is a prefix of the selection. |
| Movements.SignificantStep | no2.go:279-292 | One more entry extends the selection by at most that entry's name. |
| Movements.Take | no2.go:288-315 | The first n elements, or all of them when there are fewer. |
| Movements.ReportBounds | no2.go:276-317 | At most 6 names are reported, of which the first at most 3 are stocks in catalog order. Every reported name is a stock that moved more than 2% or a cryptocurrency that moved more than 5%. |
| Movements.Collect | no2.go:279-316 | The report loop appends, in order, the significant names until the shared count reaches the cap. |
| Movements.SelectMovements | no2.go:276-317 | The two report loops together produce Report: up to 3 significant stocks, then significant cryptocurrencies up to 6 in all. |
| Investor.Portfolio.constructor | no2.go:553-559 | A new portfolio holds only cash, on day 1, with no history and an ATH of 0. |
| Investor.Portfolio.BuyAsset | no2.go:325-343 | The result is true exactly when Buy succeeds, and the cash and positions become Buy's ledger (or are unchanged). Nothing else changes, and a well-formed ledger stays well-formed for a positive quantity and price. |
| Investor.Portfolio.SellAsset | no2.go:345-382 | The result is true exactly when Sell succeeds, and the cash and positions become Sell's ledger (or are unchanged). Nothing else changes, and a well-formed ledger stays well-formed. |
| Investor.Portfolio.UpdatePortfolioNAV | no2.go:211-247 | The positions become RefreshAll of the old positions at the catalog prices of the market's current arrays. Nothing else changes. |
| Investor.Portfolio.PortfolioValue | no2.go:510-513 | The loop totals cash plus every row's NAV. |
| Investor.Portfolio.TrackDailyHistory | no2.go:507-526 | The positions are revalued once, in effect. The history and ATH become Record of the old ones for today's day and the new total value. Cash and the day counter are unchanged, and the history stays consistent. |
| Investor.Portfolio.AdvanceTime | no2.go:250-323 | The day counter grows by DaysElapsed(hours) and the clock by the hours. Every catalog array is stepped, and the positions are revalued at the new prices. One history record is appended, and the returned movements are Report over the new stock and crypto arrays. |

## Left out

- Randomness: the Box–Muller draws of `randomPriceChange`, `rand.Float64` and the clock-seeded sources (no2.go:80-83, 93-94, 544) are parameters (`Draw`, `ClassDraws`, `MarketDraws`).
- Float representation: `float64` is modelled as exact `real`, so rounding error, infinities and NaN are not modelled. `math.Round` is exact half-away-from-zero rounding.
- `Portfolio.CurrentDate` and `time.Time` arithmetic (no2.go:259): only the number of hours the clock has advanced is kept, as `elapsedHours`. Date formatting is not modelled.
- All printing is left out. This covers `ShowPortfolio`'s table, the catalog listings, `showTimeIntervals`, `ShowInvestmentHistory`, `ShowInvestmentSummary` and the `fmt` output of `AdvanceTime`. The movement report is modelled as the list of names it prints, without direction, percentage or price text. `ShowInvestmentSummary`'s ATH update is the same rule as `History.NewAth`.
- The interactive `main` loop is left out: input reading, the menu, `os.Exit`, and the `strings.EqualFold` case-insensitive name lookup used before buy and sell. Names are compared exactly.
- Global state: the catalog slices and the `history` slice are globals in the source. Here the catalog is a `Market` object passed to the methods, and the history is a field of `Portfolio`.
- Cross-class name collisions: the revaluation lookup lets a later class overwrite an earlier match, so a crypto listing wins over a stock of the same name. The model follows the code, not a first-match-in-class-order rule (`Catalog.CatalogPriceCryptoWins`).
- `int` overflow of quantities and the day counter is not modelled; integers are unbounded.
- Investor.Portfolio.SellAsset (and Accounts.Sell): require `SellDefined`, which excludes a negative sell against a row holding zero units. The source's sell ratio is then q/0 = −Inf (no2.go:354), so the cost share is NaN or ±Inf, and the row is kept with that cost basis. A zero-unit row comes from any buy that brings the holding to exactly 0 (a buy of 0 units, a negative buy against a positive holding, or a positive buy against a negative one), since no sign is checked. Selling 0 units of such a row is modelled: the row is deleted (no2.go:373-377), cash is unchanged, and the undefined cost share is lost with the row.
- Investor.Portfolio.BuyAsset: promises a well-formed ledger only for a positive quantity at a positive price, because the source does not validate either.
- Investor.Portfolio.AdvanceTime: returns the names in the movement report. It does not check that the report is empty exactly when "No significant price movements" is printed, though that follows from the returned list being empty.
- Simulator.Market.CurrentPrice: states the price as `CatalogPrice` of the arrays. That a positive price means the name is listed is stated separately, in Catalog.CatalogPriceFound.
- Accounts.RefreshAllListed: states the new price of a listed row but not its NAV; the NAV is quantity × price by Accounts.RefreshAll.

## Findings

| source | as written | input that shows it | evidently intended | confidence | as-written member | corrected member |
|---|---|---|---|---|---|---|
| no2.go:519 | `roi := ((totalValue - athBefore) / athBefore) * 100`, with `ATHValue` never initialised (no2.go:553-559) | The first `TrackDailyHistory` after start with any total value: athBefore = 0, so the division gives ±Inf (or NaN for a zero total) | ROI = 0 when there is no prior ATH | not executed | History.RoiAsWritten, History.FirstRecordRoiUndefined | History.Roi, History.RoiAgreesWhereDefined |
