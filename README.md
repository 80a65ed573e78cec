# A verified model of augur's position, market-list and form logic

This project models five deterministic pieces of the augur repository in Dafny and proves
properties of them.

- **Complete-set position accounting**, from `src/modules/positions.js`:
  - share totals of the buy and sell complete-sets logs and of the short-sell logs, read from
    `eth_getLogs` answers;
  - the effective price of a complete set (one over the number of outcomes);
  - the adjustment that takes auto-generated complete sets out of an on-chain position;
  - the market-id enumeration and the aggregate ("net effective") trades.
- **The profit-and-loss state machine** of the same file: the position, mean open price and realized
  P/L after each maker or taker trade, and the unrealized P/L at the last trade price.
- **The market list** of the simplified UI (`markets-view.tsx`): the category, currency and
  reporting-state filters, the sort, the AMM-first partition, and the count of changed filter settings.
- **The create-market outcome lists** (`common.tsx`):
  - the `NumberedList` component and its add, remove and edit operations;
  - the reducer behind the categorical outcome dropdowns;
  - the initial categorical outcome list;
  - the category banner;
  - the defaults the time selector fills in on focus.
- **The position summary row** (`positions-summary.ts`) and **the trading form**
  (`trading-form.tsx`):
  - the position type, quantity and cost shown;
  - the amount error;
  - the ordered button-state rule;
  - the worst-case output under slippage;
  - when an estimate is requested;
  - the balance the amount is checked against;
  - the outcome grid order.

Layout: `Common.dfy` holds the shared pieces: an option type, JavaScript truthiness of strings, ASCII
lower-casing, and `Array.prototype.filter` with its lemmas. Each other file is one module for one source
file: `PositionTotals.dfy` and `ProfitLoss.dfy` (positions.js), `MarketsView.dfy`, `CreateMarket.dfy`,
`PositionsSummary.dfy` and `TradingForm.dfy`.

Modelling conventions:
- BigNumber and JavaScript numbers are exact `real`s.
- A value that can be `undefined`, `null` or NaN is an `Option` or a small datatype.
- Loops in the source are `while` loops proved against a specification function:
  - the log folds;
  - `decreasePosition` and `adjustPositions`;
  - the net-trade loop;
  - `calculateTradesPL`;
  - the changed-filter count;
  - the initial outcome list.
- `Array.prototype.sort` on the filtered markets is an in-place insertion sort on an `array`.
- `NumberedList` is a class whose methods update its state fields.

## Model

| member | source | states |
|---|---|---|
| PositionTotals.ParseHexWord | src/modules/positions.js:27 | `parseInt(code, 16)` of a `0x`-prefixed, zero-padded hex word is the value of its digits |
| PositionTotals.ModifyPositionSigned | src/modules/positions.js:24-36 | type code 1 adds the unfixed shares; every other code, NaN included, subtracts them; all non-1 codes agree |
| PositionTotals.CompleteSetsTotalsMeaning | src/modules/positions.js:44-58 | a market has a total exactly when some relevant log (present, data not empty and not `"0x"`) names it in topic 2; the total is the signed sum of that market's logs |
| PositionTotals.CalculateCompleteSetsShareTotals | src/modules/positions.js:44-58 | the loop computes the in-order fold of the logs, and `{}` for missing logs |
| PositionTotals.ShortSellOutcomeSums | src/modules/positions.js:115-134 | per market and outcome, the tally is the sum of that outcome's unfixed shares |
| PositionTotals.ShortSellTotalsAreOutcomeMaxima | src/modules/positions.js:115-134 | with non-negative share words, each market's total is the largest per-outcome sum, and some outcome attains it |
| PositionTotals.CalculateShortSellShareTotals | src/modules/positions.js:115-134 | the loop computes the fold of the short-sell logs, and `{}` for missing logs |
| PositionTotals.EffectivePriceExists | src/modules/positions.js:67-107 | a market has an effective price if and only if some relevant log of that market carries the words the loop reads |
| PositionTotals.EffectivePriceIsFirst | src/modules/positions.js:67-107 | a market gets a price exactly when some relevant log of it with words exists; the price is one over the count word of the first such log |
| PositionTotals.CalculateEffectivePrices | src/modules/positions.js:67-107 | both pricing loops (count at word 1, market at topic 2; eight words, count at word 7, market at topic 1) compute the fold, and `{}` for missing logs |
| PositionTotals.CalculateShareTotals | src/modules/positions.js:223-229 | complete-sets totals for the short-ask and sell logs, short-sell totals for the short-sell logs |
| PositionTotals.DecreasePosition | src/modules/positions.js:141-148 | same outcome keys; every outcome lowered by the adjustment |
| PositionTotals.AdjustmentBounds | src/modules/positions.js:175-183 | when the sell total exceeds the buy totals in size, the clamp makes the adjustment 0; otherwise it is buys plus sells; it is never negative |
| PositionTotals.AdjustPositions | src/modules/positions.js:167-186 | one entry per listed market; each keeps the on-chain outcome keys, lowered by the market's adjustment |
| PositionTotals.Unique | src/modules/positions.js:216 | `filter(utils.unique)` keeps every element, drops nothing new, and leaves no duplicates |
| PositionTotals.UniqueKeepsOrder | src/modules/positions.js:216 | the unique ids are a subsequence of the input: filtering only deletes, keeping the order |
| PositionTotals.UniqueMarketIdsEnumerateUnion | src/modules/positions.js:212-217 | the result lists the union of the three key sets, each id once |
| PositionTotals.MarketNetTrades | src/modules/positions.js:295-308 | a kind of log yields a trade exactly when the market has both a total and a price of that kind (a BigNumber object is always truthy); the trade has type 2 for sells, 1 otherwise, that price and the absolute total |
| PositionTotals.CalculateNetEffectiveTrades | src/modules/positions.js:277-311 | one entry per priced market, each holding exactly the trades `MarketNetTrades` describes |
| ProfitLoss.UpdateRealizedPL | src/modules/positions.js:313-315 | closing shares above the mean open price never lowers realized P/L, below it never raises it, and at the mean or with no shares it is unchanged |
| ProfitLoss.RealizedSplitSale | src/modules/positions.js:313-315 | closing two lots one after the other at one price books the same realized P/L as closing them together |
| ProfitLoss.UpdateMeanOpenPrice | src/modules/positions.js:317-321 | the new mean times the new size is the position-weighted old mean plus the share-weighted price |
| ProfitLoss.LongerPositionPL | src/modules/positions.js:325-346 | position grows by shares; from flat the mean becomes the price; a long position changes only its mean, to the weighted mean; a short one changes only realized, by −shares·(price − mean) |
| ProfitLoss.ShorterPositionPL | src/modules/positions.js:348-370 | position shrinks by shares; from flat the mean becomes the price; a short position changes only its mean; a long one changes only realized, by shares·(price − mean) |
| ProfitLoss.NonNegativeSharesDefined | src/modules/positions.js:317-321 | with non-negative shares neither step divides by zero |
| ProfitLoss.MakerTakerAgree | src/modules/positions.js:375-402 | maker type 2 equals taker type 1 (the longer step); maker with any other type equals taker with any other type (the shorter step) |
| ProfitLoss.TradePL | src/modules/positions.js:404-409 | a growing trade adds its shares to the position, any other subtracts them |
| ProfitLoss.CalculateTradesPL | src/modules/positions.js:411-419 | the loop is the in-order fold of the trades |
| ProfitLoss.PositionIsNetShares | src/modules/positions.js:411-419 | the final position is the start plus the signed sum of the trades |
| ProfitLoss.MeanBetween | src/modules/positions.js:336-337 | growing a long position leaves the mean between the old mean and the price |
| ProfitLoss.GrowingKeepsRealized | src/modules/positions.js:325-346 | from a non-negative position, growing trades never change realized P/L |
| ProfitLoss.BuyThenSell | src/modules/positions.js:325-370 | from flat, buying s at p1 and selling s at p2 realizes s·(p2 − p1) and leaves the position flat |
| ProfitLoss.SellThenBuy | src/modules/positions.js:325-370 | from flat, selling s at p1 and buying s back at p2 realizes s·(p1 − p2) and leaves the position flat |
| ProfitLoss.UnrealizedPL | src/modules/positions.js:422-425 | zero when the last price is 0, the position is flat, or the last price equals the mean |
| ProfitLoss.UnrealizedIsClosingGain | src/modules/positions.js:421-425 | at a non-zero last price, the unrealized P/L is exactly the realized P/L that closing the whole position at that price would book (a sell of a long position, a buy of a short one) |
| ProfitLoss.CalculateProfitLoss | src/modules/positions.js:436-458 | an all-zero report without trades; otherwise the fold from the zero record, with a position below the precision threshold reset to 0 (mean and unrealized too, realized kept) and unrealized at the last price otherwise |
| MarketsView.Keep | packages/augur-simplified/src/modules/markets/markets-view.tsx:161-201 | a market passes exactly when the category rule (first category case-insensitively, or not popular for OTHER), the currency rule (an AMM with that cash name) and the status rule all hold |
| MarketsView.KeptMarkets | packages/augur-simplified/src/modules/markets/markets-view.tsx:161-201 | the filter keeps exactly the markets `Keep` accepts |
| MarketsView.Compare | packages/augur-simplified/src/modules/markets/markets-view.tsx:203-216 | the comparator is `b − a` on volume and liquidity and `a − b` on end time |
| MarketsView.AfterMeansGreater | packages/augur-simplified/src/modules/markets/markets-view.tsx:203-216 | a positive comparator value means a strictly larger sort key |
| MarketsView.SortedByMeaning | packages/augur-simplified/src/modules/markets/markets-view.tsx:203-216 | a sorted list has volumes and liquidity descending and end times ascending |
| MarketsView.InsertAt | packages/augur-simplified/src/modules/markets/markets-view.tsx:203-216 | one insertion pass extends the sorted prefix and permutes the array |
| MarketsView.SortMarkets | packages/augur-simplified/src/modules/markets/markets-view.tsx:203-216 | the array is permuted in place, and sorted when every market has a rank |
| MarketsView.PartitionMultiset | packages/augur-simplified/src/modules/markets/markets-view.tsx:217-221 | the AMM-first partition is a permutation |
| MarketsView.PartitionAmmFirst | packages/augur-simplified/src/modules/markets/markets-view.tsx:217-221 | after the partition no market with an AMM follows one whose AMM is `null` |
| MarketsView.PartitionAllAmm | packages/augur-simplified/src/modules/markets/markets-view.tsx:217-221 | when every market has an AMM the partition changes nothing |
| MarketsView.FilterSorted | packages/augur-simplified/src/modules/markets/markets-view.tsx:217-221 | each half of the partition keeps the sort order |
| MarketsView.PartitionOfSorted | packages/augur-simplified/src/modules/markets/markets-view.tsx:217-221 | for a key other than ENDING_SOON, partitioning a sorted permutation keeps the same markets, puts `null`-AMM markets last, and stays sorted when every market is ranked |
| MarketsView.ApplyFiltersAndSort | packages/augur-simplified/src/modules/markets/markets-view.tsx:155-223 | the result is a permutation of the kept markets; it is sorted; with a key other than ENDING_SOON it is partitioned AMM first |
| MarketsView.CountChangedFilters | packages/augur-simplified/src/modules/markets/markets-view.tsx:264-269 | the count is the number of default keys whose setting differs |
| MarketsView.ChangedFiltersBounds | packages/augur-simplified/src/modules/markets/markets-view.tsx:264-269 | the count is at most the number of defaults, and 0 exactly when every setting matches its default |
| CreateMarket.SpliceOneMeaning | packages/augur-ui/src/modules/create-market/components/common.tsx:626 | `splice(index, 1)` with an index inside the array removes exactly that element and keeps the order of the rest; a negative index counts from the end; past the end nothing is removed |
| CreateMarket.NumberedList.constructor | packages/augur-ui/src/modules/create-market/components/common.tsx:580-584 | the list is the initial list; `isFull` and `isMin` are its length compared with `maxList` and `minShown` |
| CreateMarket.NumberedList.OnChange | packages/augur-ui/src/modules/create-market/components/common.tsx:597-602 | only row `index` changes, and only its value; the callback receives the values |
| CreateMarket.NumberedList.AddItem | packages/augur-ui/src/modules/create-market/components/common.tsx:604-620 | a full list is unchanged; otherwise one blank editable row is appended and the flags are recomputed; a list no longer than `maxList` stays so |
| CreateMarket.NumberedList.RemoveItem | packages/augur-ui/src/modules/create-market/components/common.tsx:622-639 | at the minimum nothing changes; otherwise exactly row `index` goes, the rest keeps its order, and the flags are recomputed; a list no shorter than `minShown` stays so |
| CreateMarket.DropdownReduce | packages/augur-ui/src/modules/create-market/components/common.tsx:1293-1315 | ADD and INIT_ADD append the item; REMOVE keeps exactly the items with another value; REMOVE_ALL empties the list; other types keep the state |
| CreateMarket.DropdownNotification | packages/augur-ui/src/modules/create-market/components/common.tsx:1296-1309 | ADD, REMOVE and REMOVE_ALL report the new list's values; INIT_ADD and unknown types report nothing |
| CreateMarket.DropdownRemoveKeepsOrder | packages/augur-ui/src/modules/create-market/components/common.tsx:1300-1303 | REMOVE keeps the survivors' order, and survivors plus removed items are the old list |
| CreateMarket.AddThenRemove | packages/augur-ui/src/modules/create-market/components/common.tsx:1296-1303 | removing a value right after adding it equals removing it without the addition |
| CreateMarket.OutcomeItem | packages/augur-ui/src/modules/create-market/components/common.tsx:1206-1227 | template rows are fixed: substituted text, the placeholder, or the user input when truthy |
| CreateMarket.TemplateOutcomes | packages/augur-ui/src/modules/create-market/components/common.tsx:1198-1227 | one fixed row per outcome input, in order |
| CreateMarket.NoMatchIffAbsent | packages/augur-ui/src/modules/create-market/components/common.tsx:1230 | an empty `filter` on the value means no row carries it |
| CreateMarket.AppendMissingExtends | packages/augur-ui/src/modules/create-market/components/common.tsx:1229-1236 | the earlier rows stay; only editable rows carrying an outcome are appended |
| CreateMarket.AppendMissingCovers | packages/augur-ui/src/modules/create-market/components/common.tsx:1229-1236 | afterwards every outcome is carried by some row |
| CreateMarket.AppendMissingAddsOnce | packages/augur-ui/src/modules/create-market/components/common.tsx:1229-1236 | an appended row's value occurs in no other row |
| CreateMarket.Padded | packages/augur-ui/src/modules/create-market/components/common.tsx:1238-1243 | the list is kept and blank editable rows fill it up to the minimum |
| CreateMarket.InitialOutcomeList | packages/augur-ui/src/modules/create-market/components/common.tsx:1198-1243 | the two loops compute template rows, then the missing outcomes, then padding |
| CreateMarket.InitialListMeaning | packages/augur-ui/src/modules/create-market/components/common.tsx:1198-1243 | template rows first and fixed, every later row editable, every outcome present, at least the minimum length |
| CreateMarket.TemplateBanner | packages/augur-ui/src/modules/create-market/components/common.tsx:1148-1156 | a banner is shown only for a non-empty text found by the reduce |
| CreateMarket.BannerIsLastMatch | packages/augur-ui/src/modules/create-market/components/common.tsx:1149-1155 | the text is that of the last category whose lowercase form is a key; none exactly when no category matches |
| CreateMarket.FocusDefaults | packages/augur-ui/src/modules/create-market/components/common.tsx:457-469 | a field gets its default exactly when the shown field is falsy |
| CreateMarket.ApplyTimeSelector | packages/augur-ui/src/modules/create-market/components/common.tsx:895-899 | each truthy field of the object replaces the stored one |
| CreateMarket.FocusFillsOnlyMissing | packages/augur-ui/src/modules/create-market/components/common.tsx:457-469 | after focus all three fields are set; missing ones become `'12'`, `'00'` and `'AM'`; present ones are kept |
| PositionsSummary.OrZero | packages/augur-ui/src/modules/positions/selectors/positions-summary.ts:77 | `v \|\| ZERO` is `v` itself when truthy and the number 0 otherwise (missing, NaN or 0) |
| PositionsSummary.TimesHundred | packages/augur-ui/src/modules/positions/selectors/positions-summary.ts:108-109 | NaN and missing values give 0; any other value is multiplied by 100 |
| PositionsSummary.OrZeroRedundant | packages/augur-ui/src/modules/positions/selectors/positions-summary.ts:77-101 | the `\|\| ZERO` default never changes a scaled percentage |
| PositionsSummary.Unit | packages/augur-ui/src/modules/positions/selectors/positions-summary.ts:67-93 | DAI formatting unless the para token is WETH; the amount is unchanged |
| PositionsSummary.PositionSummary | packages/augur-ui/src/modules/positions/selectors/positions-summary.ts:16-106 | null exactly without an adjusted position; the quantity is never negative |
| PositionsSummary.PositionTypeRules | packages/augur-ui/src/modules/positions/selectors/positions-summary.ts:43-61 | a live position is LONG or SHORT by sign, CLOSED_LONG or CLOSED_SHORT on a full loss; a flat one is CLOSED, or the prior's closed side |
| PositionsSummary.QuantityRule | packages/augur-ui/src/modules/positions/selectors/positions-summary.ts:42-52 | the quantity is the size of the net position, or of the prior one when flat |
| PositionsSummary.CostRule | packages/augur-ui/src/modules/positions/selectors/positions-summary.ts:44-54 | realized cost exactly when FINALIZED, unrealized otherwise; a flat position with a prior shows the prior's cost and average price |
| PositionsSummary.UnitRule | packages/augur-ui/src/modules/positions/selectors/positions-summary.ts:67-93 | every amount uses the same formatter; a last price only when the outcome price is truthy |
| PositionsSummary.SignedQuantity | packages/augur-ui/src/modules/positions/selectors/positions-summary.ts:42-60 | for a live position, type and quantity determine the net position |
| PositionsSummary.PercentRule | packages/augur-ui/src/modules/positions/selectors/positions-summary.ts:77-101 | each percentage is its input times 100, missing or NaN read as 0 |
| TradingForm.ToNumber | packages/augur-simplified/src/modules/market/trading-form.tsx:132 | `Number('')` is 0; any other string is read as a signed decimal or NaN |
| TradingForm.ToBN | packages/augur-simplified/src/modules/market/trading-form.tsx:448 | `new BigNumber('')` and `new BigNumber(undefined)` are NaN; any other string reads as `Number` reads it |
| TradingForm.NumberAgreesWithBN | packages/augur-simplified/src/modules/market/trading-form.tsx:445-448 | within the modelled decimal grammar, the two readings of a string differ only on the empty string |
| TradingForm.ParseDigits | packages/augur-simplified/src/modules/market/trading-form.tsx:132 | a digit string reads as its value, with a leading minus as its negation |
| TradingForm.ParseFraction | packages/augur-simplified/src/modules/market/trading-form.tsx:132 | `d.f` with digit strings d and f, not both empty, reads as d + f / 10^(length of f) |
| TradingForm.ParseNegated | packages/augur-simplified/src/modules/market/trading-form.tsx:132 | a leading minus negates the value of any unsigned decimal |
| TradingForm.ErrorCheck | packages/augur-simplified/src/modules/market/trading-form.tsx:130-136 | the error is raised exactly for a non-empty amount that is NaN, zero or negative |
| TradingForm.EmptyAmountTestRedundant | packages/augur-simplified/src/modules/market/trading-form.tsx:445 | the `amount === ''` test adds nothing to the `Number` tests |
| TradingForm.CanMakeTrade | packages/augur-simplified/src/modules/market/trading-form.tsx:442-460 | ENTER_AMOUNT exactly for no amount; INSUFFICIENT_BALANCE exactly when an amount exceeds the balance; OVER_SLIPPAGE exactly when both earlier checks pass and the slippage setting is below the estimate's; disabled exactly in those three cases; otherwise the button error or the order type |
| TradingForm.NegativeAmountPassesButtonChecks | packages/augur-simplified/src/modules/market/trading-form.tsx:130-136 | a negative amount is flagged by the input but passes the button's amount and balance checks |
| TradingForm.MinusOneAgainstZeroBalance | packages/augur-simplified/src/modules/market/trading-form.tsx:442-454 | the amount "-1" against a balance of "0" is flagged by the input, yet the button shows no amount or balance error |
| TradingForm.AcceptedAmountPassesAmountCheck | packages/augur-simplified/src/modules/market/trading-form.tsx:445-447 | an amount the input accepts passes the button's amount check |
| TradingForm.RoundHalfUpNearest | packages/augur-simplified/src/modules/market/trading-form.tsx:465 | `decimalPlaces(0)` under ROUND_HALF_UP is the integer within one half of its argument, the half-open interval pointing away from zero so a tie rounds away from zero; non-negative for a non-negative argument |
| TradingForm.RoundHalfUpTies | packages/augur-simplified/src/modules/market/trading-form.tsx:465 | an exact half is rounded up only above zero and down only below zero |
| TradingForm.RoundHalfUpMonotone | packages/augur-simplified/src/modules/market/trading-form.tsx:465 | rounding keeps order |
| TradingForm.WorstCaseOutput | packages/augur-simplified/src/modules/market/trading-form.tsx:462-465 | defined exactly when the output and slippage are numbers; the nearest integer to output·(1 − slippage/100), ties away from zero: the only integer r with r − ½ ≤ exact < r + ½ for a non-negative exact value (r − ½ < exact ≤ r + ½ for a negative one) |
| TradingForm.WorstCaseWithinEstimate | packages/augur-simplified/src/modules/market/trading-form.tsx:462-465 | with slippage between 0 and 100 the worst case lies between 0 and the rounded output |
| TradingForm.EnterBreakdown | packages/augur-simplified/src/modules/market/trading-form.tsx:276-301 | four entries; their placeholders without an estimate |
| TradingForm.ExitBreakdown | packages/augur-simplified/src/modules/market/trading-form.tsx:303-328 | four entries; their placeholders without an estimate |
| TradingForm.OnTradeInputsChange | packages/augur-simplified/src/modules/market/trading-form.tsx:422-426 | an estimate is requested exactly for an outcome and a positive amount; otherwise the breakdown resets to the empty one for the order type |
| TradingForm.EstimateOnlyForValidAmount | packages/augur-simplified/src/modules/market/trading-form.tsx:422-423 | a requested estimate implies an amount both checks accept |
| TradingForm.UserBalance | packages/augur-simplified/src/modules/market/trading-form.tsx:432-440 | a buy reads the cash balance (or "0" without a cash name); a sell reads the outcome's shares (or "0" when missing) |
| TradingForm.VisibleOutcomesShown | packages/augur-simplified/src/modules/market/trading-form.tsx:222-225 | the grid shows every valid outcome and no invalid one |
| TradingForm.VisibleOutcomesInOrder | packages/augur-simplified/src/modules/market/trading-form.tsx:222-225 | for every list, the grid read back to front is exactly the valid outcomes in their order, hence a subsequence of the outcomes |
| TradingForm.DefaultOutcomesGrid | packages/augur-simplified/src/modules/market/trading-form.tsx:28-46 | for the default outcomes yes, No and Invalid the grid shows No, then yes |
| TradingForm.VisibleOutcomesOrder | packages/augur-simplified/src/modules/market/trading-form.tsx:222-225 | without invalid outcomes the grid is the list reversed |

## Left out

- I/O and foreign code are not modelled:
  - the asynchronous branches of `adjustPositions` and `getAdjustedPositions`, and the RPC log queries;
  - `getPositionInMarket` (its answer is a parameter);
  - `rpc.unmarshal` (logs carry their decoded words);
  - `substituteUserOutcome` (a function parameter);
  - the trading form's `estimateEnterTrade`, `estimateExitTrade` and `doTrade` calls.
- Constants whose definitions are not part of this model are parameters:
  - `PRECISION.zero`, `CATEGORICAL_OUTCOMES_MIN_NUM`, `SETTINGS_SLIPPAGE`;
  - `POPULAR_CATEGORIES_ICONS` keys, `TemplateBannerText`, `DEFAULT_MARKET_VIEW_SETTINGS`, `WETH`.
  `abi.unfix` is taken as a division by 10^18.
- Number representation:
  - BigNumber's finite precision, its rounding modes other than the default, and `toFixed` are left out;
    results are exact reals.
  - String parsing follows a small decimal grammar: sign, digits, optional fraction. White space,
    exponents, hex literals and `Infinity` are not modelled; `parseInt` is modelled without leading white space.
- JavaScript details:
  - Object key order is not modelled: maps are unordered. `findUniqueMarketIDs` takes the key lists as sequences.
  - `utils.unique` is not part of this model; it is taken to keep each element once. The model proves the result
    is a duplicate-free subsequence holding every element, not that it is the first occurrence that stays.
  - `toLowerCase` is ASCII only.
- PositionTotals:
  - Logs are required to carry the topics and words the code indexes. A missing word would make the code
    read `undefined`.
  - A price log's outcome count must be non-zero; the code would divide by zero (Infinity).
  - Short-sell outcome ids are the decoded word rather than the `parseInt(...).toString()` key.
  - `ShortSellTotalsAreOutcomeMaxima` assumes non-negative share words, as unsigned chain words are.
- ProfitLoss:
  - Trade shares are required to be non-negative, so the mean-price update never divides by zero.
    JavaScript would produce Infinity or NaN instead.
  - `UpdateMeanOpenPrice` carries the non-zero divisor as its precondition for the same reason.
  - `abi.bignum` conversions of trade fields are in the datatype already; `console.log` is dropped.
  - `CalculateProfitLoss` stops before the `toFixed` string conversion.
- MarketsView:
  - `Array.prototype.sort` is an unspecified, implementation-defined algorithm. Here it is a stable
    insertion sort, with order claims only when every market has a number to compare.
  - The comparator's `return true` for an unknown sort key and NaN differences (a missing AMM) are
    modelled as values but lead to no order claim.
  - `undefined` and `null` AMMs are told apart, as `!== null` does.
  - `setFilteredMarkets` is the result.
  - Keep: under a named-category or OTHER filter, a market with no categories makes the source throw a
    TypeError on `categories[0].toLowerCase()`; `Keep` rejects such a market instead of modelling the throw.
  - ApplyFiltersAndSort: requires every market to have a category when a category filter is set, because the
    source throws otherwise; the exception is not modelled.
- CreateMarket:
  - `UNSAFE_componentWillReceiveProps` replaces the list without recomputing the flags; it is not modelled.
  - The list is a value: the source mutates the `initialList` prop array in place, so the parent shares it.
  - `minShown` and `maxList` are fixed at construction.
  - The rendering (`removable`, `hideAdd`) and the `console.log` in the reducer are left out.
  - The dropdown component's other effects (initialisation, dependent dropdown inputs) are left out.
- PositionsSummary:
  - The number formatters are left out. A `Money` value records which formatter receives the amount;
    percentages are the numbers `formatPercent` receives; `formatMarketShares` is not applied.
  - The outcome price is a number, so a string price `"0"` (truthy in JavaScript) is not modelled.
- TradingForm:
  - `orderType` is always BUY or SELL.
  - Of the estimate effect, only the decision is modelled; the asynchronous update and the mounted flag
    are not.
  - `makeTrade` reads the raw `slippage` setting, while `canMakeTrade` falls back to `SETTINGS_SLIPPAGE`.
    The worst case therefore needs a set slippage.
- The rest of the repository (AMM exchange API, accounts, other UI components) is not part of this model.
