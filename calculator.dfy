/**
 * The calculator form's example-input helpers: the random stock, date and amount pickers
 * and the percentage formatter.
 *
 * `Math.random()` is a parameter in [0, 1). Instants are integer milliseconds since the
 * Unix epoch; a form date is a UTC day number, the day `toISOString().split("T")[0]` names.
 */
module Calculator {
  import opened Wrappers
  import opened Decimal
  import opened Time
  import opened Calendar

  /** `365 * 24 * 60 * 60 * 1000`: the year the pickers count in. */
  const MsPerYear: int := 365 * MsPerDay
  /** `maxYearsBack * 365 * 24 * 60 * 60 * 1000` with `maxYearsBack = 10`. */
  const MaxYearsBackMs: int := 10 * MsPerYear
  /** `minYearsBack * 365 * 24 * 60 * 60 * 1000` with `minYearsBack = 0.5`. */
  const MinYearsBackMs: int := MsPerYear / 2

  // ---------------------------------------------------------------------------
  // The stock table

  /** A row of `stocksWithIPO`; the IPO date is a calendar date read as UTC midnight. */
  datatype Listing = Listing(symbol: string, year: int, month: int, day: int)

  const Listings: seq<Listing> := [
      Listing("AAPL", 1980, 12, 12),
      Listing("MSFT", 1986, 3, 13),
      Listing("AMZN", 1997, 5, 15),
      Listing("GOOGL", 2004, 8, 19),
      Listing("TSLA", 2010, 6, 29),
      Listing("META", 2012, 5, 18),
      Listing("NVDA", 1999, 1, 22),
      Listing("NFLX", 2002, 5, 23),
      Listing("AMD", 1972, 9, 27),
      Listing("PYPL", 2015, 7, 6),
      Listing("DIS", 1957, 11, 12),
      Listing("BA", 1962, 1, 2),
      Listing("JPM", 1971, 1, 4),
      Listing("JNJ", 1944, 9, 25),
      Listing("PG", 1891, 1, 1),
      Listing("KO", 1919, 9, 5),
      Listing("PEP", 1965, 12, 30),
      Listing("WMT", 1972, 8, 25),
      Listing("HD", 1981, 9, 22),
      Listing("V", 2008, 3, 19),
      Listing("MA", 2006, 5, 25),
      Listing("UNH", 1984, 10, 17),
      Listing("CRM", 2004, 6, 23),
      Listing("ADBE", 1986, 8, 20),
      Listing("INTC", 1971, 10, 13),
      Listing("CSCO", 1990, 2, 16),
      Listing("VZ", 1983, 11, 21),
      Listing("T", 1983, 11, 18),
      Listing("XOM", 1972, 1, 3),
      Listing("CVX", 1977, 7, 1),
      Listing("PFE", 1972, 6, 1),
      Listing("MRK", 1946, 1, 1),
      Listing("ABBV", 2013, 1, 2),
      Listing("TMO", 1986, 11, 1),
      Listing("COST", 1985, 12, 5),
      Listing("AVGO", 2009, 8, 6),
      Listing("TXN", 1972, 9, 1),
      Listing("QCOM", 1991, 12, 16),
      Listing("ORCL", 1986, 3, 12),
      Listing("IBM", 1962, 1, 2),
      Listing("SBUX", 1992, 6, 26),
      Listing("MCD", 1965, 4, 21),
      Listing("NKE", 1980, 12, 2),
      Listing("BABA", 2014, 9, 19),
      Listing("SHOP", 2015, 5, 21),
      Listing("SQ", 2015, 11, 19),
      Listing("ZM", 2019, 4, 18),
      Listing("UBER", 2019, 5, 10),
      Listing("LYFT", 2019, 3, 29),
      Listing("SNAP", 2017, 3, 2)
    ]

  /** `new Date(stockData.ipoDate)`: the listing day's UTC midnight. */
  function IpoInstant(listing: Listing): (t: int)
    ensures t % MsPerDay == 0
    ensures t / MsPerDay == EpochDays(listing.year, listing.month, listing.day)
  {
    EpochDays(listing.year, listing.month, listing.day) * MsPerDay
  }

  /** The table holds the fifty listings of the component. */
  lemma ListingsSize()
    ensures |Listings| == 50
  {
  }

  /** `table.find((stock) => stock.symbol === symbol)`: the first row with exactly that symbol. */
  function FindIn(table: seq<Listing>, symbol: string): (r: Option<Listing>)
    ensures r.None? <==> forall i :: 0 <= i < |table| ==> table[i].symbol != symbol
    ensures r.Some? ==>
      exists i :: 0 <= i < |table| && table[i] == r.value && r.value.symbol == symbol
        && forall j :: 0 <= j < i ==> table[j].symbol != symbol
  {
    if table == [] then None
    else if table[0].symbol == symbol then Some(table[0])
    else
      var r := FindIn(table[1..], symbol);
      assert forall i :: 1 <= i < |table| ==> table[i] == table[1..][i - 1];
      r
  }

  /** The IPO instant `getRandomDate` uses: none for an empty symbol or one not in the table. */
  function ListedIpo(table: seq<Listing>, symbol: string): (r: Option<int>)
    ensures r.None? <==> symbol == "" || forall i :: 0 <= i < |table| ==> table[i].symbol != symbol
    ensures r.Some? ==>
      exists i :: 0 <= i < |table| && table[i].symbol == symbol && r.value == IpoInstant(table[i])
        && forall j :: 0 <= j < i ==> table[j].symbol != symbol
  {
    if symbol == "" then None
    else match FindIn(table, symbol)
      case None => None
      case Some(listing) => Some(IpoInstant(listing))
  }

  // ---------------------------------------------------------------------------
  // Randomness and instants

  /** A draw in [0, 1) scaled by a positive span stays in [0, span). */
  lemma ScaledDrawBelow(random: real, span: real)
    requires 0.0 <= random < 1.0 && span > 0.0
    ensures 0.0 <= random * span < span
  {
    calc {
      span - random * span;
    ==
      (1.0 - random) * span;
    >
      0.0;
    }
  }

  /** `Math.floor(Math.random() * n)`. */
  function RandomIndex(random: real, n: nat): (i: nat)
    requires 0.0 <= random < 1.0 && n > 0
    ensures i < n
  {
    var x := random * n as real;
    ScaledDrawBelow(random, n as real);
    assert x < n as real;
    x.Floor
  }

  /** `new Date(x)` for a finite `x`: the time value is truncated toward zero. */
  function TimeClip(x: real): (t: int)
    ensures x >= 0.0 ==> t as real <= x < t as real + 1.0
    ensures x < 0.0 ==> t as real - 1.0 < x <= t as real
  {
    if x >= 0.0 then x.Floor else -((-x).Floor)
  }

  /** The UTC day of an instant, which `toISOString().split("T")[0]` writes out. */
  function DayOf(t: int): (day: int)
    ensures day * MsPerDay <= t < day * MsPerDay + MsPerDay
  {
    t / MsPerDay
  }

  // ---------------------------------------------------------------------------
  // getRandomDate

  /** The instants `getRandomDate` draws between. */
  datatype Window = Window(earliest: int, latest: int)

  /** The window `getRandomDate` draws from. */
  function DateWindow(table: seq<Listing>, symbol: string, today: int): (w: Window)
    ensures w.earliest < w.latest
    ensures w.latest == today - MinYearsBackMs
    ensures today - MaxYearsBackMs <= w.earliest
  {
    var tenYearsAgo := today - MaxYearsBackMs;
    var candidate := match ListedIpo(table, symbol)
      case None => tenYearsAgo
      case Some(ipo) => if ipo > tenYearsAgo then ipo else tenYearsAgo;
    var latest := today - MinYearsBackMs;
    Window(if candidate >= latest then latest - MsPerYear else candidate, latest)
  }

  /** No symbol, or one not in the table: the window starts exactly ten years back. */
  lemma WindowUnlisted(table: seq<Listing>, symbol: string, today: int)
    requires ListedIpo(table, symbol).None?
    ensures DateWindow(table, symbol, today).earliest == today - MaxYearsBackMs
  {
  }

  /** A listed symbol: the later of its IPO and ten years back, unless that leaves no room. */
  lemma WindowListed(table: seq<Listing>, symbol: string, today: int)
    requires ListedIpo(table, symbol).Some?
    ensures var later := if ListedIpo(table, symbol).value > today - MaxYearsBackMs
                         then ListedIpo(table, symbol).value else today - MaxYearsBackMs;
            DateWindow(table, symbol, today).earliest
              == if later < today - MinYearsBackMs then later else today - MinYearsBackMs - MsPerYear
  {
  }

  /** When the IPO is more than half a year back, the window starts on or after it. */
  lemma WindowAfterIpo(table: seq<Listing>, symbol: string, today: int)
    requires ListedIpo(table, symbol).Some? && ListedIpo(table, symbol).value < today - MinYearsBackMs
    ensures ListedIpo(table, symbol).value <= DateWindow(table, symbol, today).earliest
  {
  }

  lemma DayOfMonotone(a: int, b: int)
    requires a <= b
    ensures DayOf(a) <= DayOf(b)
  {
  }

  /** A day number whose UTC midnight lies at or after a UTC midnight is no earlier than that day. */
  lemma DayOfAligned(day: int, t: int)
    requires day * MsPerDay <= t
    ensures day <= DayOf(t)
  {
  }

  /** The day `getRandomDate` draws for a given `Math.random()` value. */
  function DrawnDay(table: seq<Listing>, symbol: string, today: int, random: real): (day: int)
    ensures var t := DrawnInstant(DateWindow(table, symbol, today), random);
      day * MsPerDay <= t < day * MsPerDay + MsPerDay
  {
    DayOf(DrawnInstant(DateWindow(table, symbol, today), random))
  }

  /** `new Date(earliest + Math.random() * (latest - earliest))`. */
  function DrawnInstant(w: Window, random: real): int {
    TimeClip(w.earliest as real + random * (w.latest - w.earliest) as real)
  }

  /**
   * The drawn point lies in [earliest, latest), and truncation toward zero keeps the instant
   * in the closed window, short of `latest` whenever `latest` is positive.
   */
  lemma DrawnInstantInWindow(w: Window, random: real)
    requires w.earliest < w.latest && 0.0 <= random < 1.0
    ensures w.earliest <= DrawnInstant(w, random) <= w.latest
    ensures w.latest > 0 ==> DrawnInstant(w, random) < w.latest
  {
    var span := (w.latest - w.earliest) as real;
    ScaledDrawBelow(random, span);
    var x := w.earliest as real + random * span;
    assert w.earliest as real <= x < w.latest as real;
    var t := TimeClip(x);
    assert x >= 0.0 ==> w.earliest as real < t as real + 1.0 && t as real < w.latest as real;
    assert x < 0.0 ==> w.earliest as real <= t as real && t as real - 1.0 < w.latest as real && t <= 0;
  }

  /** The drawn day lies in the window and, for a stock listed over half a year ago, on or after its IPO. */
  lemma DrawnDayInWindow(table: seq<Listing>, symbol: string, today: int, random: real)
    requires 0.0 <= random < 1.0
    ensures var w := DateWindow(table, symbol, today);
      DayOf(w.earliest) <= DrawnDay(table, symbol, today, random) <= DayOf(w.latest)
      && (w.latest > 0 ==> DrawnDay(table, symbol, today, random) * MsPerDay < w.latest)
    ensures ListedIpo(table, symbol).Some? && ListedIpo(table, symbol).value < today - MinYearsBackMs
      ==> ListedIpo(table, symbol).value <= DrawnDay(table, symbol, today, random) * MsPerDay
  {
    var w := DateWindow(table, symbol, today);
    var instant := DrawnInstant(w, random);
    DrawnInstantInWindow(w, random);
    DayOfMonotone(w.earliest, instant);
    DayOfMonotone(instant, w.latest);
    if ListedIpo(table, symbol).Some? && ListedIpo(table, symbol).value < today - MinYearsBackMs {
      WindowAfterIpo(table, symbol, today);
      var listing := FindIn(table, symbol).value;
      DayOfAligned(EpochDays(listing.year, listing.month, listing.day), instant);
    }
  }

  /** The source's intermediate `timeDiff` and `randomTime` compute the drawn instant. */
  lemma DrawnInstantSteps(w: Window, random: real, timeDiff: int, randomTime: real)
    requires timeDiff == w.latest - w.earliest && randomTime == random * timeDiff as real
    ensures TimeClip(w.earliest as real + randomTime) == DrawnInstant(w, random)
  {
  }

  /** `getRandomDate`: a random day in the window, written as the UTC calendar day. */
  method RandomDate(table: seq<Listing>, stockSymbol: string, today: int, random: real) returns (day: int)
    requires 0.0 <= random < 1.0
    ensures day == DrawnDay(table, stockSymbol, today, random)
  {
    var earliest := today - MaxYearsBackMs;
    ghost var listed := ListedIpo(table, stockSymbol);
    if stockSymbol != "" {
      var stockData := FindIn(table, stockSymbol);
      if stockData.Some? {
        var ipo := IpoInstant(stockData.value);
        assert listed == Some(ipo);
        earliest := if ipo > earliest then ipo else earliest;
      }
    }
    var latest := today - MinYearsBackMs;
    if earliest >= latest {
      earliest := latest - MsPerYear;
    }
    ghost var window := Window(earliest, latest);
    assert window == DateWindow(table, stockSymbol, today);
    var timeDiff := latest - earliest;
    var randomTime := random * timeDiff as real;
    var instant := TimeClip(earliest as real + randomTime);
    DrawnInstantSteps(window, random, timeDiff, randomTime);
    day := DayOf(instant);
  }

  // ---------------------------------------------------------------------------
  // The form and its updaters

  /**
   * The date field: empty, a calendar day, or typed text that `new Date` cannot read, for
   * which every comparison with an instant is false.
   */
  datatype FormDate = NoDate | OnDay(day: int) | Unreadable(text: string)

  datatype FormData = FormData(symbol: string, date: FormDate, amount: string)

  /** `currentDate < ipoDate`: the form's day starts before the stock's IPO. */
  predicate BeforeIpo(day: int, listing: Listing) {
    day * MsPerDay < IpoInstant(listing)
  }

  /** `handleRandomStock`'s updater: a random symbol, and a fresh date only when the old one precedes its IPO. */
  method RandomStock(table: seq<Listing>, prev: FormData, today: int, pick: real, dateRandom: real)
    returns (next: FormData)
    requires |table| > 0 && 0.0 <= pick < 1.0 && 0.0 <= dateRandom < 1.0
    ensures next.symbol == table[RandomIndex(pick, |table|)].symbol
    ensures next.amount == prev.amount
    ensures FindIn(table, next.symbol).Some?
    ensures !prev.date.OnDay? ==> next.date == prev.date
    ensures prev.date.OnDay? && !BeforeIpo(prev.date.day, FindIn(table, next.symbol).value)
      ==> next.date == prev.date
    ensures prev.date.OnDay? && BeforeIpo(prev.date.day, FindIn(table, next.symbol).value)
      ==> next.date == OnDay(DrawnDay(table, next.symbol, today, dateRandom))
  {
    var newStock := table[RandomIndex(pick, |table|)].symbol;
    assert FindIn(table, newStock).Some?;
    var newDate := prev.date;
    if prev.date.OnDay? {
      var stockData := FindIn(table, newStock);
      if stockData.Some? {
        if BeforeIpo(prev.date.day, stockData.value) {
          var day := RandomDate(table, newStock, today, dateRandom);
          newDate := OnDay(day);
        }
      }
    }
    next := prev.(symbol := newStock, date := newDate);
  }

  /** `handleRandomDate`'s updater: a random day for the current symbol, if any. */
  method RandomDateField(table: seq<Listing>, prev: FormData, today: int, random: real) returns (next: FormData)
    requires 0.0 <= random < 1.0
    ensures next == prev.(date := OnDay(DrawnDay(table, prev.symbol, today, random)))
  {
    var day := RandomDate(table, prev.symbol, today, random);
    next := prev.(date := OnDay(day));
  }

  const Amounts: seq<nat> := [500, 1000, 1500, 2000, 2500, 5000, 10000]

  /** `getRandomAmount`: one of the fixed amounts, as its decimal string. */
  function RandomAmount(random: real): (s: string)
    requires 0.0 <= random < 1.0
    ensures AllDigits(s) && DigitsValue(s) in Amounts
    ensures DigitsValue(s) == Amounts[RandomIndex(random, |Amounts|)]
  {
    var amount := Amounts[RandomIndex(random, |Amounts|)];
    DigitsRoundTrip(amount);
    NatToString(amount)
  }

  /** `handleRandomAmount`'s updater: only the amount changes. */
  function RandomAmountField(prev: FormData, random: real): (next: FormData)
    requires 0.0 <= random < 1.0
    ensures next.symbol == prev.symbol && next.date == prev.date
    ensures AllDigits(next.amount) && DigitsValue(next.amount) in Amounts
    ensures DigitsValue(next.amount) == Amounts[RandomIndex(random, |Amounts|)]
  {
    prev.(amount := RandomAmount(random))
  }

  // ---------------------------------------------------------------------------
  // formatPercentage

  /** A number as `toFixed(2)` writes it: an optional minus sign, `cents / 100`, a point and two digits. */
  datatype Fixed2 = Fixed2(negative: bool, cents: nat)

  /** The text `toFixed(2)` writes: reading its digits back gives the whole and the fractional part. */
  function Render(f: Fixed2): (s: string)
    ensures |s| >= (if f.negative then 5 else 4)
    ensures s[0] == '-' <==> f.negative
    ensures f.negative ==> IsDigit(s[1])
    ensures !f.negative ==> IsDigit(s[0])
    ensures var k := if f.negative then 1 else 0;
      s[|s| - 3] == '.'
      && AllDigits(s[k..|s| - 3]) && DigitsValue(s[k..|s| - 3]) == f.cents / 100
      && AllDigits(s[|s| - 2..]) && DigitsValue(s[|s| - 2..]) == f.cents % 100
  {
    var sign := if f.negative then "-" else "";
    var whole := NatToString(f.cents / 100);
    var fraction := [DigitChar(f.cents / 10 % 10), DigitChar(f.cents % 10)];
    DigitsRoundTrip(f.cents / 100);
    FractionValue(f.cents);
    PointedParts(sign, whole, fraction);
    sign + whole + "." + fraction
  }

  /** The two fractional digits `toFixed(2)` writes read back as `cents % 100`. */
  lemma FractionValue(cents: nat)
    ensures DigitsValue([DigitChar(cents / 10 % 10), DigitChar(cents % 10)]) == cents % 100
  {
    var a := cents / 10;
    var tens, units := a % 10, cents % 10;
    DivModUnique(cents, 10, a, units);
    DivModUnique(a, 10, a / 10, tens);
    DivModUnique(cents, 100, a / 10, tens * 10 + units);
    var fraction := [DigitChar(tens), DigitChar(units)];
    assert fraction[..1] == [DigitChar(tens)] && fraction[..1][..0] == [];
    assert DigitsValue(fraction[..1]) == tens;
    assert DigitsValue(fraction) == tens * 10 + units;
  }

  /** The parts of a sign, digits, point and two digits can be sliced back out. */
  lemma PointedParts(sign: string, whole: string, fraction: string)
    requires |fraction| == 2
    ensures var s := sign + whole + "." + fraction;
      s[|sign|..|s| - 3] == whole && s[|s| - 3] == '.' && s[|s| - 2..] == fraction
  {
  }

  /** `parseFloat` of the rendering, as a real; IEEE `-0 >= 0` holds, as `-0.0 >= 0.0` does here. */
  function Value(f: Fixed2): (v: real)
    ensures v * 100.0 == (if f.negative then -(f.cents as real) else f.cents as real)
    ensures v >= 0.0 <==> !f.negative || f.cents == 0
  {
    (if f.negative then -1.0 else 1.0) * f.cents as real / 100.0
  }

  /** A leading sign, then a digit. */
  predicate WellSigned(s: string) {
    |s| >= 2 && (s[0] == '+' || s[0] == '-') && IsDigit(s[1])
  }

  /** `formatPercentage`, as written: a "+" whenever `parseFloat(value) >= 0`. */
  function FormatPercentage(f: Fixed2): (s: string)
    ensures |s| == |Render(f)| + (if Value(f) >= 0.0 then 2 else 1)
    ensures |s| > |Render(f)| && s[|s| - |Render(f)| - 1..] == Render(f) + "%"
    ensures s[0] == '+' <==> Value(f) >= 0.0
  {
    (if Value(f) >= 0.0 then "+" else "") + Render(f) + "%"
  }

  /** `toFixed(2)` writes a small negative such as -0.004 as "-0.00", which gets both signs. */
  lemma FormatPercentageNegativeZero()
    ensures FormatPercentage(Fixed2(true, 0)) == "+-0.00%"
    ensures !WellSigned(FormatPercentage(Fixed2(true, 0)))
  {
    assert Render(Fixed2(true, 0)) == "-0.00";
  }

  /** The intended formatter: a "+" only where the text carries no minus sign. */
  function FormatPercentageSigned(f: Fixed2): (s: string)
    ensures WellSigned(s)
    ensures |s| > |Render(f)| && s[|s| - |Render(f)| - 1..] == Render(f) + "%"
    ensures !(f.negative && f.cents == 0) ==> s == FormatPercentage(f)
  {
    (if f.negative then "" else "+") + Render(f) + "%"
  }
}
