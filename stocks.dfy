/**
 * The backend route module: price look-ups against the market-data provider and the
 * `/calculate` and `/info/:symbol` handlers.
 *
 * Instants are integer milliseconds since the Unix epoch; prices and amounts are reals.
 * The provider is a parameter: a function from the query the backend sends to the reply
 * it gets, so the same query always gets the same reply.
 */
module Stocks {
  import opened Wrappers
  import opened Time

  /** `365.25 * 24 * 60 * 60 * 1000`, the year length used for `yearsHeld`. */
  const MsPerJulianYear: real := 31_557_600_000.0

  const NoSymbolDataMessage: string := "No data found for this stock symbol"
  const NoCurrentPriceMessage: string := "Unable to get current price"
  const NoHistoricalDataMessage: string := "No historical data found for this date"
  const InvalidDateMessage: string := "Invalid time value"
  const MissingFieldsMessage: string := "Missing required fields: symbol, date, and amount are required"
  const NonPositiveAmountMessage: string := "Investment amount must be greater than 0"
  const FutureDateMessage: string := "Investment date cannot be in the future"
  const CalculationFailedMessage: string :=
    "Unable to calculate investment returns. Please check the stock symbol and date."
  const SymbolNotFoundMessage: string := "Stock symbol not found or invalid"

  // ---------------------------------------------------------------------------
  // Timestamps

  /** `formatDate`: an instant in milliseconds as whole Unix seconds, rounded down. */
  function FormatDate(ms: int): (secs: int)
    ensures secs * MsPerSecond <= ms < secs * MsPerSecond + MsPerSecond
  {
    ms / MsPerSecond
  }

  lemma FormatDateMonotone(a: int, b: int)
    requires a <= b
    ensures FormatDate(a) <= FormatDate(b)
  {
  }

  /** Whole seconds survive the conversion: the query window loses only sub-second parts. */
  lemma FormatDateWholeSeconds(secs: int)
    ensures FormatDate(secs * MsPerSecond) == secs
  {
  }

  // ---------------------------------------------------------------------------
  // The provider

  /** The request `getStockData` sends: the symbol, `period1` and `period2` in Unix seconds. */
  datatype Query = Query(symbol: string, period1: int, period2: int)

  /** `chart.result[0]`: the timestamp array and the parallel close array, which may hold nulls. */
  datatype Chart = Chart(timestamps: seq<int>, closes: seq<Option<real>>)

  /**
   * What the provider answers: a chart, a payload without a result (`!data.chart`,
   * `!data.chart.result` or an empty result list), or a transport failure.
   */
  datatype Reply = Answer(chart: Chart) | NoResult | TransportFailure(reason: string)

  type Upstream = Query -> Reply

  /** A thrown error's message, or the value a look-up returns. */
  datatype Lookup<T> = Found(value: T) | Failed(message: string)

  /** `getStockData`'s result: the timestamps as received and the closes with nulls dropped. */
  datatype StockData = StockData(timestamps: seq<int>, prices: seq<real>)

  /** The query `getStockData` sends: `period1` and `period2` are the Unix seconds of the bounds. */
  function StockQuery(symbol: string, startMs: int, endMs: int): (q: Query)
    ensures q.symbol == symbol
    ensures q.period1 * MsPerSecond <= startMs < q.period1 * MsPerSecond + MsPerSecond
    ensures q.period2 * MsPerSecond <= endMs < q.period2 * MsPerSecond + MsPerSecond
  {
    Query(symbol, FormatDate(startMs), FormatDate(endMs))
  }

  // ---------------------------------------------------------------------------
  // Dropping null closes

  /** `prices.filter((price) => price !== null)`. */
  function DropNulls(closes: seq<Option<real>>): (prices: seq<real>)
    ensures |prices| <= |closes|
    ensures forall i :: 0 <= i < |prices| ==> Some(prices[i]) in closes
    ensures forall i :: 0 <= i < |closes| && closes[i].Some? ==> closes[i].value in prices
  {
    if closes == [] then []
    else
      var rest := DropNulls(closes[1..]);
      assert forall i :: 0 <= i < |rest| ==> Some(rest[i]) in closes by {
        forall i | 0 <= i < |rest| ensures Some(rest[i]) in closes {
          assert Some(rest[i]) in closes[1..];
        }
      }
      assert forall i :: 1 <= i < |closes| && closes[i].Some? ==> closes[i].value in rest by {
        forall i | 1 <= i < |closes| && closes[i].Some? ensures closes[i].value in rest {
          assert closes[1..][i - 1] == closes[i];
        }
      }
      match closes[0]
      case Some(p) => [p] + rest
      case None => rest
  }

  /** Filtering distributes over concatenation, so the survivors keep their relative order. */
  lemma {:induction false} DropNullsAppend(a: seq<Option<real>>, b: seq<Option<real>>)
    ensures DropNulls(a + b) == DropNulls(a) + DropNulls(b)
    decreases |a|
  {
    if a != [] {
      assert (a + b)[1..] == a[1..] + b;
      DropNullsAppend(a[1..], b);
    } else {
      assert a + b == b;
    }
  }

  predicate HasClose(closes: seq<Option<real>>) {
    exists i :: 0 <= i < |closes| && closes[i].Some?
  }

  /** `p` is the earliest non-null close of the series. */
  ghost predicate IsFirstClose(closes: seq<Option<real>>, p: real) {
    exists i :: 0 <= i < |closes| && closes[i] == Some(p) && forall j :: 0 <= j < i ==> closes[j].None?
  }

  /** `p` is the latest non-null close of the series. */
  ghost predicate IsLastClose(closes: seq<Option<real>>, p: real) {
    exists i :: 0 <= i < |closes| && closes[i] == Some(p) && forall j :: i < j < |closes| ==> closes[j].None?
  }

  /** Nothing is left exactly when every close is null. */
  lemma DropNullsEmpty(closes: seq<Option<real>>)
    ensures DropNulls(closes) == [] <==> !HasClose(closes)
  {
    if HasClose(closes) {
      var i :| 0 <= i < |closes| && closes[i].Some?;
      assert closes[i].value in DropNulls(closes);
    }
  }

  /** The head of the filtered list is the earliest non-null close. */
  lemma {:induction false} DropNullsFirst(closes: seq<Option<real>>)
    requires DropNulls(closes) != []
    ensures IsFirstClose(closes, DropNulls(closes)[0])
  {
    match closes[0]
    case Some(p) =>
      assert closes[0] == Some(DropNulls(closes)[0]);
    case None =>
      var tail := closes[1..];
      DropNullsFirst(tail);
      var i :| 0 <= i < |tail| && tail[i] == Some(DropNulls(tail)[0])
               && forall j :: 0 <= j < i ==> tail[j].None?;
      assert closes[i + 1] == tail[i];
      assert forall j :: 1 <= j < i + 1 ==> closes[j] == tail[j - 1];
  }

  /** Filtering a series with one more close appended keeps that close exactly when it is not null. */
  lemma DropNullsSnoc(init: seq<Option<real>>, last: Option<real>)
    ensures DropNulls(init + [last]) == DropNulls(init) + (if last.Some? then [last.value] else [])
  {
    DropNullsAppend(init, [last]);
    assert [last][1..] == [];
  }

  /** The last element of the filtered list is the latest non-null close. */
  lemma {:induction false} DropNullsLast(closes: seq<Option<real>>)
    requires DropNulls(closes) != []
    ensures IsLastClose(closes, DropNulls(closes)[|DropNulls(closes)| - 1])
    decreases |closes|
  {
    var n := |closes|;
    var init, last := closes[..n - 1], closes[n - 1];
    assert closes == init + [last];
    DropNullsSnoc(init, last);
    if last.Some? {
      assert DropNulls(closes)[|DropNulls(closes)| - 1] == last.value;
    } else {
      assert DropNulls(closes) == DropNulls(init);
      DropNullsLast(init);
      var prices := DropNulls(init);
      var i :| 0 <= i < |init| && init[i] == Some(prices[|prices| - 1])
               && forall j :: i < j < |init| ==> init[j].None?;
      assert closes[i] == init[i];
      assert forall j :: i < j < n ==> closes[j].None? by {
        forall j | i < j < n ensures closes[j].None? {
          if j < n - 1 { assert closes[j] == init[j]; }
        }
      }
    }
  }

  // ---------------------------------------------------------------------------
  // Price look-ups

  /** `getStockData`: send the query for [startMs, endMs] and keep the non-null closes. */
  function GetStockData(symbol: string, startMs: int, endMs: int, upstream: Upstream): (r: Lookup<StockData>)
    ensures r.Found? <==> upstream(StockQuery(symbol, startMs, endMs)).Answer?
    ensures r.Found? ==>
      var chart := upstream(StockQuery(symbol, startMs, endMs)).chart;
      r.value.timestamps == chart.timestamps && r.value.prices == DropNulls(chart.closes)
    ensures upstream(StockQuery(symbol, startMs, endMs)).NoResult? ==> r == Failed(NoSymbolDataMessage)
  {
    match upstream(StockQuery(symbol, startMs, endMs))
    case NoResult => Failed(NoSymbolDataMessage)
    case TransportFailure(reason) => Failed(reason)
    case Answer(chart) => Found(StockData(chart.timestamps, DropNulls(chart.closes)))
  }

  /** The query `getCurrentPrice` sends: yesterday to today, one day of Unix seconds ending at now's second. */
  function CurrentWindow(symbol: string, now: int): (q: Query)
    ensures q.symbol == symbol
    ensures q.period2 * MsPerSecond <= now < q.period2 * MsPerSecond + MsPerSecond
    ensures q.period2 - q.period1 == 86_400
  {
    StockQuery(symbol, now - MsPerDay, now)
  }

  /** The query `getHistoricalPrice` sends: seven days of Unix seconds starting at the target's second. */
  function HistoricalWindow(symbol: string, targetMs: int): (q: Query)
    ensures q.symbol == symbol
    ensures q.period1 * MsPerSecond <= targetMs < q.period1 * MsPerSecond + MsPerSecond
    ensures q.period2 - q.period1 == 7 * 86_400
  {
    StockQuery(symbol, targetMs, targetMs + 7 * MsPerDay)
  }

  /** `getCurrentPrice`: the last non-null close between yesterday and now. */
  function GetCurrentPrice(symbol: string, now: int, upstream: Upstream): (r: Lookup<real>)
    ensures r.Found? <==>
      upstream(CurrentWindow(symbol, now)).Answer? && HasClose(upstream(CurrentWindow(symbol, now)).chart.closes)
    ensures r.Found? ==> IsLastClose(upstream(CurrentWindow(symbol, now)).chart.closes, r.value)
    ensures upstream(CurrentWindow(symbol, now)).Answer? && !HasClose(upstream(CurrentWindow(symbol, now)).chart.closes)
      ==> r == Failed(NoCurrentPriceMessage)
    ensures upstream(CurrentWindow(symbol, now)).NoResult? ==> r == Failed(NoSymbolDataMessage)
  {
    match GetStockData(symbol, now - MsPerDay, now, upstream)
    case Failed(message) => Failed(message)
    case Found(data) =>
      var closes := upstream(CurrentWindow(symbol, now)).chart.closes;
      DropNullsEmpty(closes);
      if |data.prices| == 0 then Failed(NoCurrentPriceMessage)
      else
        DropNullsLast(closes);
        Found(data.prices[|data.prices| - 1])
  }

  /**
   * `getHistoricalPrice`: the first non-null close in the week starting at the target.
   * `targetMs` is None when the date string does not parse, where `toISOString` throws.
   */
  function GetHistoricalPrice(symbol: string, targetMs: Option<int>, upstream: Upstream): (r: Lookup<real>)
    ensures targetMs.None? ==> r == Failed(InvalidDateMessage)
    ensures targetMs.Some? ==>
      var reply := upstream(HistoricalWindow(symbol, targetMs.value));
      (r.Found? <==> reply.Answer? && HasClose(reply.chart.closes))
      && (r.Found? ==> IsFirstClose(reply.chart.closes, r.value))
      && (reply.Answer? && !HasClose(reply.chart.closes) ==> r == Failed(NoHistoricalDataMessage))
      && (reply.NoResult? ==> r == Failed(NoSymbolDataMessage))
  {
    match targetMs
    case None => Failed(InvalidDateMessage)
    case Some(target) =>
      match GetStockData(symbol, target, target + 7 * MsPerDay, upstream)
      case Failed(message) => Failed(message)
      case Found(data) =>
        var closes := upstream(HistoricalWindow(symbol, target)).chart.closes;
        DropNullsEmpty(closes);
        if |data.prices| == 0 then Failed(NoHistoricalDataMessage)
        else
          DropNullsFirst(closes);
          Found(data.prices[0])
  }

  // ---------------------------------------------------------------------------
  // Symbols

  function UpperChar(c: char): char {
    if 'a' <= c <= 'z' then (c as int - 32) as char else c
  }

  /** `toUpperCase`, on ASCII letters. */
  function UpperCase(s: string): (u: string)
    ensures |u| == |s|
    ensures forall i :: 0 <= i < |s| ==> u[i] == UpperChar(s[i])
    ensures forall i :: 0 <= i < |u| ==> !('a' <= u[i] <= 'z')
  {
    if s == [] then [] else [UpperChar(s[0])] + UpperCase(s[1..])
  }

  // ---------------------------------------------------------------------------
  // Returns

  /** The derived figures, or NotFinite when the historical price is 0 and the division yields Infinity or NaN. */
  datatype Figures =
    | Finite(sharesPurchased: real, currentValue: real, totalReturn: real, returnPercentage: real)
    | NotFinite

  /** The arithmetic of the `/calculate` handler after both prices are known. */
  function Compute(amount: real, historicalPrice: real, currentPrice: real): (f: Figures)
    requires amount > 0.0
    ensures f.Finite? <==> historicalPrice != 0.0
    ensures f.Finite? ==> f.sharesPurchased * historicalPrice == amount
    ensures f.Finite? ==> f.currentValue == amount * currentPrice / historicalPrice
    ensures f.Finite? ==> f.totalReturn == f.currentValue - amount
    ensures f.Finite? ==> f.returnPercentage == (currentPrice - historicalPrice) / historicalPrice * 100.0
  {
    if historicalPrice == 0.0 then NotFinite
    else
      var shares := amount / historicalPrice;
      var value := shares * currentPrice;
      assert value - amount == amount * ((currentPrice - historicalPrice) / historicalPrice);
      Finite(shares, value, value - amount, (value - amount) / amount * 100.0)
  }

  /** No price change, no return. */
  lemma FlatPriceNoReturn(amount: real, price: real)
    requires amount > 0.0 && price != 0.0
    ensures Compute(amount, price, price).totalReturn == 0.0
    ensures Compute(amount, price, price).returnPercentage == 0.0
  {
  }

  /** A current price of 0 loses the whole amount. */
  lemma ZeroPriceTotalLoss(amount: real, historicalPrice: real)
    requires amount > 0.0 && historicalPrice != 0.0
    ensures Compute(amount, historicalPrice, 0.0).currentValue == 0.0
    ensures Compute(amount, historicalPrice, 0.0).totalReturn == -amount
    ensures Compute(amount, historicalPrice, 0.0).returnPercentage == -100.0
  {
  }

  /** With amount and historical price fixed, the return percentage strictly increases with the current price. */
  lemma ReturnPercentageIncreasing(amount: real, historicalPrice: real, low: real, high: real)
    requires amount > 0.0 && historicalPrice > 0.0 && low < high
    ensures Compute(amount, historicalPrice, low).returnPercentage
          < Compute(amount, historicalPrice, high).returnPercentage
  {
    var d1, d2 := low - historicalPrice, high - historicalPrice;
    assert d1 < d2;
    assert d1 / historicalPrice < d2 / historicalPrice by {
      assert (d2 - d1) / historicalPrice > 0.0;
      assert d2 / historicalPrice - d1 / historicalPrice == (d2 - d1) / historicalPrice;
    }
  }

  /** `(today - investmentDate) / (365.25 * 24 * 60 * 60 * 1000)`. */
  function YearsHeld(investmentMs: int, now: int): (years: real)
    ensures years * MsPerJulianYear == (now - investmentMs) as real
    ensures investmentMs <= now ==> years >= 0.0
  {
    (now - investmentMs) as real / MsPerJulianYear
  }

  // ---------------------------------------------------------------------------
  // The /calculate handler

  /** The request's `date` field: absent or empty, not a date (`new Date` gives NaN), or an instant. */
  datatype DateText = Blank | Unparseable | Instant(ms: int)

  /** The request body; `amount` is None when absent, null or NaN. */
  datatype Request = Request(symbol: string, date: DateText, amount: Option<real>)

  /** The success body, before number formatting. */
  datatype Investment = Investment(
    symbol: string,
    investmentDate: int,
    originalAmount: real,
    historicalPrice: real,
    currentPrice: real,
    figures: Figures,
    yearsHeld: real)

  datatype Response = Ok(result: Investment) | Err(status: int, message: string)

  /** `!symbol || !date || !amount`: an amount of 0 is falsy and counts as missing. */
  predicate MissingField(req: Request) {
    req.symbol == [] || req.date.Blank? || req.amount.None? || req.amount.value == 0.0
  }

  /** The three validation steps all pass. */
  predicate Admissible(req: Request, now: int): (ok: bool)
    ensures ok ==> req.symbol != [] && !req.date.Blank? && req.amount.Some? && req.amount.value > 0.0
    ensures ok && req.date.Instant? ==> req.date.ms <= now
  {
    !MissingField(req) && req.amount.value > 0.0 && !(req.date.Instant? && req.date.ms > now)
  }

  /** `new Date(date)` over `DateText`: the instant of a date that parses, None otherwise. */
  function ParsedDate(date: DateText): Option<int> {
    if date.Instant? then Some(date.ms) else None
  }

  /** `router.post("/calculate", ...)`. */
  function Calculate(req: Request, now: int, upstream: Upstream): (r: Response)
    ensures MissingField(req) ==> r == Err(400, MissingFieldsMessage)
    ensures !MissingField(req) && req.amount.value < 0.0 ==> r == Err(400, NonPositiveAmountMessage)
    ensures !MissingField(req) && req.amount.value > 0.0 && req.date.Instant? && req.date.ms > now
      ==> r == Err(400, FutureDateMessage)
    ensures r.Err? ==> r.status == 400 || r == Err(500, CalculationFailedMessage)
    ensures r.Err? && r.status == 400 <==> !Admissible(req, now)
    ensures Admissible(req, now) ==>
      (r.Ok? <==>
        GetHistoricalPrice(UpperCase(req.symbol), ParsedDate(req.date), upstream).Found?
        && GetCurrentPrice(UpperCase(req.symbol), now, upstream).Found?)
    ensures r.Ok? ==>
      req.date.Instant? && r.result.investmentDate == req.date.ms <= now
      && r.result.symbol == UpperCase(req.symbol)
      && r.result.originalAmount == req.amount.value > 0.0
      && GetHistoricalPrice(r.result.symbol, Some(req.date.ms), upstream) == Found(r.result.historicalPrice)
      && GetCurrentPrice(r.result.symbol, now, upstream) == Found(r.result.currentPrice)
      && r.result.figures == Compute(r.result.originalAmount, r.result.historicalPrice, r.result.currentPrice)
      && r.result.yearsHeld == YearsHeld(req.date.ms, now)
  {
    if MissingField(req) then Err(400, MissingFieldsMessage)
    else if req.amount.value <= 0.0 then Err(400, NonPositiveAmountMessage)
    else if req.date.Instant? && req.date.ms > now then Err(400, FutureDateMessage)
    else
      var symbol := UpperCase(req.symbol);
      match GetHistoricalPrice(symbol, ParsedDate(req.date), upstream)
      case Failed(_) => Err(500, CalculationFailedMessage)
      case Found(historicalPrice) =>
        match GetCurrentPrice(symbol, now, upstream)
        case Failed(_) => Err(500, CalculationFailedMessage)
        case Found(currentPrice) =>
          var amount := req.amount.value;
          Ok(Investment(symbol, req.date.ms, amount, historicalPrice, currentPrice,
                        Compute(amount, historicalPrice, currentPrice), YearsHeld(req.date.ms, now)))
  }

  /** A date equal to `now` is not in the future. */
  lemma DateTodayAccepted(symbol: string, amount: real, now: int, upstream: Upstream)
    requires symbol != [] && amount > 0.0
    ensures Calculate(Request(symbol, Instant(now), Some(amount)), now, upstream).Err?
        ==> Calculate(Request(symbol, Instant(now), Some(amount)), now, upstream).status == 500
  {
  }

  /** Either look-up failing gives the one 500 response, whatever the look-up's own message. */
  lemma LookupFailureIs500(req: Request, now: int, upstream: Upstream)
    requires Admissible(req, now)
    requires GetHistoricalPrice(UpperCase(req.symbol), ParsedDate(req.date), upstream).Failed?
          || GetCurrentPrice(UpperCase(req.symbol), now, upstream).Failed?
    ensures Calculate(req, now, upstream) == Err(500, CalculationFailedMessage)
  {
  }

  /**
   * A date that does not parse passes validation, since `NaN > today` is false, and then
   * `getHistoricalPrice` throws on `toISOString`, so the request ends as the 500.
   */
  lemma UnparseableDateIs500(symbol: string, amount: real, now: int, upstream: Upstream)
    requires symbol != [] && amount > 0.0
    ensures Calculate(Request(symbol, Unparseable, Some(amount)), now, upstream) == Err(500, CalculationFailedMessage)
  {
  }

  /** 1000 invested at 150 and now worth 180 a share is a 20% gain of 200. */
  lemma TwentyPercentExample()
    ensures Compute(1000.0, 150.0, 180.0) == Finite(1000.0 / 150.0, 1200.0, 200.0, 20.0)
  {
  }

  // ---------------------------------------------------------------------------
  // The /info/:symbol handler

  datatype InfoResponse = Info(symbol: string, currentPrice: real, timestamp: int) | NotFound(status: int, message: string)

  /** `router.get("/info/:symbol", ...)`: the current price, or 404 on any failure. */
  function StockInfo(symbol: string, now: int, upstream: Upstream): (r: InfoResponse)
    ensures r.Info? <==> GetCurrentPrice(UpperCase(symbol), now, upstream).Found?
    ensures r.Info? ==>
      r.symbol == UpperCase(symbol) && r.timestamp == now
      && IsLastClose(upstream(CurrentWindow(UpperCase(symbol), now)).chart.closes, r.currentPrice)
    ensures r.NotFound? ==> r == NotFound(404, SymbolNotFoundMessage)
  {
    match GetCurrentPrice(UpperCase(symbol), now, upstream)
    case Failed(_) => NotFound(404, SymbolNotFoundMessage)
    case Found(price) => Info(UpperCase(symbol), price, now)
  }
}
