# IfYouInvested: price selection, return arithmetic and example-input pickers

This project models the computational core of a "what if I had invested" calculator.
You give it a ticker symbol, a past date and a dollar amount. The backend fetches daily
closes from a market-data provider and picks two of them:

- the historical price is the first non-null close in the week that starts at the date;
- the current price is the last non-null close between yesterday and now.

From those two prices it computes shares purchased, current value, total return, return
percentage and years held. It also models the browser form's example-input helpers: the
random date window, the rule that keeps or regenerates the date when a random stock is picked,
the fixed list of random amounts, and the percentage formatter.

The model has six modules:

| file | module | models |
|---|---|---|
| `wrappers.dfy` | `Wrappers` | `Option`, used for nullable closes and failed look-ups |
| `time.dfy` | `Time` | the millisecond units shared by both sides |
| `decimal.dfy` | `Decimal` | integer `toString` and the value of a digit string |
| `calendar.dfy` | `Calendar` | day numbers of calendar dates, as a date-only string is read as UTC midnight |
| `stocks.dfy` | `Stocks` | `backend/routes/stocks.js`: `formatDate`, `getStockData`, `getCurrentPrice`, `getHistoricalPrice`, the `/calculate` and `/info/:symbol` handlers |
| `calculator.dfy` | `Calculator` | `frontend/src/components/InvestmentCalculator.tsx`: `stocksWithIPO`, `getRandomStock`, `getRandomDate`, `getRandomAmount`, the `handleRandom*` updaters, `formatPercentage` |

Conventions:

- Instants are integer milliseconds since the Unix epoch. Prices, amounts and percentages
  are Dafny `real`s.
- The backend is pure code, so it is modelled as functions. The provider is a parameter
  `upstream: Query -> Reply`. A `Query` is the symbol with `period1` and `period2` in Unix
  seconds. A `Reply` is a chart (timestamps plus a `seq<Option<real>>` of closes), a payload
  without a result, or a transport failure.
- The handler's clock is a parameter `now`. The frontend's `today` is a parameter too.
  `Math.random()` becomes a `real` parameter in [0, 1).
- `getRandomDate` and `handleRandomStock` build their result by reassigning locals, so they
  are methods (`RandomDate`, `RandomStock`). Each is proved against a specification function
  (`DrawnDay`), and the lemmas prove that function's bounds. `stocksWithIPO` is the constant
  `Calculator.Listings`. The date and stock members take the table as a parameter `table`,
  which stands for `stocksWithIPO`; nothing is proved about the fifty rows themselves.
- A form date is a UTC day number. That is the day `toISOString().split("T")[0]` writes, and
  `new Date("YYYY-MM-DD")` reads it back as that day's UTC midnight. IPO dates go through the
  days-from-civil conversion `Calendar.EpochDays`.

The model follows the code as written, including these behaviours:

- A date equal to now is accepted. Only a date strictly after now is rejected (line 113).
- An amount of 0 is reported as a missing field, not as a non-positive amount, because
  `!amount` is checked first (lines 97-107).
- Every `/calculate` look-up failure, including an unknown symbol, is a 500 (lines 149-155).
- A date string that does not parse passes validation (`NaN > today` is false). It then fails
  inside `getHistoricalPrice`, where `toISOString` throws, so it also ends as a 500.
- A historical price of 0 is not rejected. The divisions then give Infinity or NaN, which the
  model records as `Figures.NotFinite`.

## Model

| member | source | states |
|---|---|---|
| `Stocks.FormatDate` | backend/routes/stocks.js:9-12 | the result is floor(ms / 1000): `secs * 1000 <= ms < secs * 1000 + 1000` |
| `Stocks.FormatDateMonotone` | backend/routes/stocks.js:9-12 | a later instant never gets an earlier Unix second |
| `Stocks.FormatDateWholeSeconds` | backend/routes/stocks.js:9-12 | converting whole seconds to ms and back gives them again |
| `Stocks.DropNulls` | backend/routes/stocks.js:35 | every kept price is a non-null close of the input, every non-null close is kept, and the list is no longer than the input |
| `Stocks.DropNullsAppend` | backend/routes/stocks.js:35 | filtering distributes over concatenation, so kept closes stay in their original order |
| `Stocks.DropNullsSnoc` | backend/routes/stocks.js:35 | appending one close to the series appends it to the prices exactly when it is not null |
| `Stocks.DropNullsEmpty` | backend/routes/stocks.js:35 | the price list is empty exactly when every close is null |
| `Stocks.DropNullsFirst` | backend/routes/stocks.js:80-84 | `prices[0]` is the earliest non-null close: all closes before it are null |
| `Stocks.DropNullsLast` | backend/routes/stocks.js:56-60 | `prices[length - 1]` is the latest non-null close: all closes after it are null |
| `Stocks.GetStockData` | backend/routes/stocks.js:15-41 | the query is (symbol, formatDate(start), formatDate(end)); success exactly when the provider answers with a chart; timestamps are returned unfiltered and prices are the chart's closes with nulls dropped; a result-less payload fails with "No data found for this stock symbol" |
| `Stocks.StockQuery` | backend/routes/stocks.js:15-20 | the query names the symbol, and `period1` and `period2` are the Unix seconds containing the start and end instants |
| `Stocks.CurrentWindow` | backend/routes/stocks.js:46-54 | the query for the symbol spans exactly one day of Unix seconds, 86 400, and ends at the second containing `now` |
| `Stocks.HistoricalWindow` | backend/routes/stocks.js:70-78 | the query for the symbol spans exactly seven days of Unix seconds and starts at the second containing the target instant |
| `Stocks.GetCurrentPrice` | backend/routes/stocks.js:44-65 | the query covers [now - 1 day, now]; the result is found exactly when the reply is a chart with a non-null close, and it is the last non-null close; an all-null chart fails with "Unable to get current price" |
| `Stocks.GetHistoricalPrice` | backend/routes/stocks.js:68-89 | the query covers [target, target + 7 days]; the result is found exactly when the reply is a chart with a non-null close, and it is the first non-null close; an all-null chart fails with "No historical data found for this date"; an unparseable date fails |
| `Stocks.UpperCase` | backend/routes/stocks.js:121-124 | same length, each ASCII letter upper-cased and nothing else changed; no lower-case letter remains |
| `Stocks.Compute` | backend/routes/stocks.js:127-130 | the figures are finite exactly when the historical price is nonzero; then shares × historical price = amount, current value = amount × current / historical, total return = current value − amount, and return percentage = (current − historical) / historical × 100 |
| `Stocks.FlatPriceNoReturn` | backend/routes/stocks.js:127-130 | when the current price equals the historical price, total return and return percentage are 0 |
| `Stocks.ZeroPriceTotalLoss` | backend/routes/stocks.js:127-130 | a current price of 0 gives current value 0, total return −amount and return percentage −100 |
| `Stocks.ReturnPercentageIncreasing` | backend/routes/stocks.js:130 | with amount and a positive historical price fixed, the return percentage strictly increases with the current price |
| `Stocks.TwentyPercentExample` | backend/routes/stocks.js:127-130 | 1000 invested at 150 and now worth 180 a share gives 1000/150 shares, value 1200, return 200, 20% |
| `Stocks.YearsHeld` | backend/routes/stocks.js:133 | years × 365.25 days of ms = now − investment instant, and the result is non-negative for a date not in the future |
| `Stocks.MissingField` | backend/routes/stocks.js:97 | one of `!symbol`, `!date`, `!amount` holds: an empty symbol, a blank date, or an amount that is absent, null, NaN or 0 (all falsy) |
| `Stocks.Admissible` | backend/routes/stocks.js:97-117 | all three validations pass; then the symbol and date are present, the amount is positive, and a parsed date is not after `now` |
| `Stocks.ParsedDate` | backend/routes/stocks.js:110 | `new Date(date)` over the `DateText` abstraction: the instant of a date that parses, None otherwise; its partner is `UnparseableDateIs500` |
| `Stocks.Calculate` | backend/routes/stocks.js:92-156 | missing field first, then amount < 0, then a date strictly after now, each a 400 with its own message; a 400 exactly when validation fails; otherwise success exactly when both look-ups on the upper-cased symbol succeed, and every other failure is the single 500 message; on success the symbol is upper-cased, the prices are those look-ups' results, and the figures and years held are computed from them |
| `Stocks.DateTodayAccepted` | backend/routes/stocks.js:110-117 | a date equal to now never gets a 400; it either succeeds or fails in a look-up with a 500 |
| `Stocks.UnparseableDateIs500` | backend/routes/stocks.js:110-155 | with a symbol and a positive amount, a date that does not parse passes validation and the request ends as the single 500 |
| `Stocks.LookupFailureIs500` | backend/routes/stocks.js:149-155 | after validation, a failure of either look-up gives exactly the 500 response, whatever the look-up's own message |
| `Stocks.StockInfo` | backend/routes/stocks.js:159-175 | found exactly when the current-price look-up on the upper-cased symbol succeeds; the reply carries the upper-cased symbol, the last non-null close and `now`; any failure is the 404 "Stock symbol not found or invalid" |
| `Decimal.NatToString` | frontend/src/components/InvestmentCalculator.tsx:128 | the numeral is non-empty, all digits, with no leading zero |
| `Decimal.DigitsRoundTrip` | frontend/src/components/InvestmentCalculator.tsx:128 | reading back the digits of `n.toString()` gives `n` |
| `Decimal.NatToStringInjective` | frontend/src/components/InvestmentCalculator.tsx:128 | distinct amounts have distinct strings |
| `Calendar.EpochDays` | frontend/src/components/InvestmentCalculator.tsx:103 | days since 1970-01-01 of a Gregorian date (days-from-civil); its properties are the three lemmas below |
| `Calendar.EpochDaysAnchors` | frontend/src/components/InvestmentCalculator.tsx:103 | the date conversion puts 1970-01-01 at day 0, 1969-12-31 at day −1, and gets 1970-03-01 and 2000-03-01 right |
| `Calendar.MarchToMarch` | frontend/src/components/InvestmentCalculator.tsx:103 | from one first of March to the next there are 366 days when the later year is a Gregorian leap year, else 365 |
| `Calendar.EpochDaysNextDate` | frontend/src/components/InvestmentCalculator.tsx:143 | for every valid date, the next calendar date (across month ends, February in leap and common years, and year ends) is valid and has the next day number |
| `Calculator.IpoInstant` | frontend/src/components/InvestmentCalculator.tsx:143 | `new Date(stockData.ipoDate)` is a UTC midnight, and its day is the listing date's day number |
| `Calculator.ListedIpo` | frontend/src/components/InvestmentCalculator.tsx:98-106 | none exactly for an empty symbol or one no row has; otherwise the IPO instant of the first row with exactly that symbol |
| `Calculator.ListingsSize` | frontend/src/components/InvestmentCalculator.tsx:29-80 | the table holds fifty rows, so it meets the non-empty table `RandomStock` requires |
| `Calculator.FindIn` | frontend/src/components/InvestmentCalculator.tsx:99-101 | `find` gives none exactly when no row has the symbol; otherwise it gives the first row whose symbol is exactly equal |
| `Calculator.RandomIndex` | frontend/src/components/InvestmentCalculator.tsx:84 | `Math.floor(Math.random() * n)` is a valid index below n |
| `Calculator.TimeClip` | frontend/src/components/InvestmentCalculator.tsx:120 | `new Date(x)` truncates toward zero: within 1 ms of x, on x's side of zero |
| `Calculator.DayOf` | frontend/src/components/InvestmentCalculator.tsx:122 | the UTC day of an instant: the instant falls within that day |
| `Calculator.DateWindow` | frontend/src/components/InvestmentCalculator.tsx:93-116 | after the fallback, earliest < latest; latest is today − 0.5·365 days; earliest is never before today − 10·365 days |
| `Calculator.WindowUnlisted` | frontend/src/components/InvestmentCalculator.tsx:93-107 | with no symbol, or one not in the table, the earliest bound is exactly today − 10·365·86 400 000 ms |
| `Calculator.WindowListed` | frontend/src/components/InvestmentCalculator.tsx:98-116 | with a listed symbol, the earliest bound is the later of its IPO and ten years back, or latest − 365 days when that is not before latest |
| `Calculator.WindowAfterIpo` | frontend/src/components/InvestmentCalculator.tsx:98-116 | if the IPO is more than half a year back, the window starts on or after it |
| `Calculator.DayOfMonotone` | frontend/src/components/InvestmentCalculator.tsx:122 | a later instant is never on an earlier day |
| `Calculator.DayOfAligned` | frontend/src/components/InvestmentCalculator.tsx:103-122 | an instant at or after a day's UTC midnight is on that day or later |
| `Calculator.DrawnInstant` | frontend/src/components/InvestmentCalculator.tsx:118-120 | `new Date(earliest + Math.random() * (latest - earliest))`; its bounds are `DrawnInstantInWindow` |
| `Calculator.DrawnInstantSteps` | frontend/src/components/InvestmentCalculator.tsx:118-120 | the source's intermediate `timeDiff` and `randomTime` give exactly the drawn instant |
| `Calculator.DrawnDay` | frontend/src/components/InvestmentCalculator.tsx:88-123 | the UTC day of the truncated draw from `DateWindow`: the drawn instant falls within that day |
| `Calculator.DrawnInstantInWindow` | frontend/src/components/InvestmentCalculator.tsx:118-120 | the drawn instant lies in [earliest, latest], and below latest whenever latest is positive |
| `Calculator.DrawnDayInWindow` | frontend/src/components/InvestmentCalculator.tsx:88-123 | the drawn day lies between the days of the window's bounds; its midnight is before latest when latest is positive; for a stock listed more than half a year ago it is on or after the IPO, so a regenerated date is never before the IPO |
| `Calculator.RandomDate` | frontend/src/components/InvestmentCalculator.tsx:88-123 | the step-by-step `getRandomDate` returns exactly the drawn day of the specification window |
| `Calculator.BeforeIpo` | frontend/src/components/InvestmentCalculator.tsx:142-145 | `currentDate < ipoDate`: the form day's UTC midnight is before the IPO instant |
| `Calculator.RandomStock` | frontend/src/components/InvestmentCalculator.tsx:132-157 | the symbol is replaced by the drawn row's symbol and found in the table; the amount is untouched; an empty date, or text that does not parse as a date, is kept; a date on or after the new IPO is kept; only a date before the IPO is replaced, by the drawn day for the new symbol |
| `Calculator.RandomDateField` | frontend/src/components/InvestmentCalculator.tsx:159-164 | only the date changes, to the drawn day for the current symbol |
| `Calculator.RandomAmount` | frontend/src/components/InvestmentCalculator.tsx:125-129 | the string is all digits and denotes one of 500, 1000, 1500, 2000, 2500, 5000, 10000; it is the amount at index `Math.floor(Math.random() * 7)` |
| `Calculator.RandomAmountField` | frontend/src/components/InvestmentCalculator.tsx:166-171 | only the amount changes, to the fixed amount at index `Math.floor(Math.random() * 7)` |
| `Calculator.Render` | backend/routes/stocks.js:145 | a `toFixed(2)` string starts with "-" exactly for a negative-signed value and otherwise with a digit; the character three from the end is the point; the digits before it read back as `cents / 100` and the two after it as `cents % 100` |
| `Calculator.Value` | frontend/src/components/InvestmentCalculator.tsx:232 | `parseFloat` of the rendering is ±cents/100, and it is `>= 0` exactly when the value is unsigned or zero, so "-0.00" counts as non-negative |
| `Calculator.FormatPercentage` | frontend/src/components/InvestmentCalculator.tsx:231-233 | the value string followed by "%" is kept as a suffix; a leading "+" appears exactly when `parseFloat(value) >= 0` |
| `Calculator.FormatPercentageNegativeZero` | frontend/src/components/InvestmentCalculator.tsx:231-233 | the as-written formatter turns "-0.00" into "+-0.00%", which has two signs |
| `Calculator.FormatPercentageSigned` | frontend/src/components/InvestmentCalculator.tsx:231-233 | the corrected formatter always gives exactly one sign followed by a digit, keeps the value as a suffix, and agrees with the original everywhere except "-0.00" |

## Findings

| source | as written | input that shows it | evidently intended | confidence | as-written member | corrected member |
|---|---|---|---|---|---|---|
| frontend/src/components/InvestmentCalculator.tsx:231-233 | prefixes "+" whenever `parseFloat(value) >= 0` | a return percentage in (−0.005, 0), e.g. −0.004, which `toFixed(2)` writes as "-0.00"; `parseFloat` gives −0, and `-0 >= 0` holds | one sign before the digits: "-0.00%" | medium, not executed | `Calculator.FormatPercentageNegativeZero` | `Calculator.FormatPercentageSigned` |

## Left out

- The provider call (`axios.get`, the URL string, the response-shape checks on lines 20-27) is foreign I/O. It is the `upstream` parameter. A payload whose `indicators.quote[0].close` is missing throws a TypeError in the source. The model does not represent that payload shape; the transport-failure reply stands for it.
- The clock: `/calculate` reads `new Date()` once at line 111, for both the future-date check and `yearsHeld`, and again inside `getCurrentPrice` (line 46); `/info` reads it at lines 46 and 167. The model uses one instant `now` for all of them.
- Calendar arithmetic: `setDate(getDate() ∓ n)` is local-time day arithmetic, so across a DST change it differs from n × 86 400 000 ms by an hour. The model uses n × 86 400 000 ms. Date strings are not parsed: a request date is `Blank`, `Unparseable` or an instant. A form date is empty, a day number, or text that does not parse.
- The range limit of JavaScript dates (±8.64·10^15 ms), outside which `new Date` is invalid and `toISOString` throws.
- Annualized return (line 134) raises the ratio to the power 1 / years. That needs a fractional-exponent power, which Dafny reals do not have, and at `years == 0` the exponent is infinite. It is not modelled, and neither is its `* 100`.
- Number formatting: `toFixed(2)`/`toFixed(4)` of the handler's reply, `Intl.NumberFormat`, and `parseFloat`, except as described for `Calculator.Render` and `Calculator.Value`. Double-precision rounding of the arithmetic is not modelled; the identities hold exactly over reals.
- Stocks.Compute: IEEE overflow to Infinity for huge finite prices is not modelled. Only a zero historical price gives `NotFinite`, and the model does not say which non-finite value each field holds.
- Stocks.UpperCase: models `toUpperCase` on ASCII letters only. Other characters, whose Unicode upper case may differ or be longer, are left unchanged.
- Request fields that are not JSON strings or numbers (for example a string amount that `<=` would coerce) are not modelled. `amount` is None for absent, null or NaN.
- Calculator.FormatPercentage: models only values that `toFixed(2)` writes in fixed-point form (the `Fixed2` datatype). Not modelled: the strings "NaN" and "Infinity", which reach `formatPercentage` when a historical price is 0 and also when `years == 0` for a date equal to now, where `Math.pow(ratio, 1 / years)` (backend/routes/stocks.js:134) gives Infinity or NaN and the form passes that to `formatPercentage` at line 563; and the exponent form `toFixed` uses for magnitudes of 1e21 or more, which `annualizedReturn * 100` can reach for a date one day back.
- `handleInputChange` (a generic field setter), `handleSubmit` with its `axios.post` and error-message branching, `formatCurrency`, and all JSX markup are UI and network glue. `frontend/src/App.tsx` is a static component tree.
- Console logging and Express routing (`res.status(...).json`) are glue; statuses and messages are the model's `Response` and `InfoResponse` values.
- React may call a state updater more than once. The model treats each updater as one call with its random draws as parameters.
