/**
 * The equal-weight backtester of backend/controllers/backtestController.js:
 * each fetched series is rescaled to start at 100, the rescaled prices are
 * grouped by calendar date, and each date's return is the mean of its
 * prices minus 100, in chronological order.
 *
 * Dates of the series are day keys (`YYYY-MM-DD` read as a day number);
 * the fetched histories are an input map, a missing entry standing for a
 * fetch that failed and was caught as an empty series.
 */
module Backtest {
  import opened Common

  // ---------------------------------------------------------------------
  // The start date
  // ---------------------------------------------------------------------

  /** A calendar date; `month` counts from 0 as in a JavaScript `Date`. */
  datatype CalendarDate = CalendarDate(year: int, month: int, day: int)

  predicate IsLeapYear(year: int) {
    (year % 4 == 0 && year % 100 != 0) || year % 400 == 0
  }

  function DaysInMonth(year: int, month: int): (n: int)
    requires 0 <= month < 12
    ensures 28 <= n <= 31
  {
    if month == 1 then (if IsLeapYear(year) then 29 else 28)
    else if month == 3 || month == 5 || month == 8 || month == 10 then 30
    else 31
  }

  predicate ValidDate(d: CalendarDate) {
    0 <= d.month < 12 && 1 <= d.day <= DaysInMonth(d.year, d.month)
  }

  /** Months since year 0; orders dates by month. */
  function MonthIndex(d: CalendarDate): int {
    d.year * 12 + d.month
  }

  predicate Before(a: CalendarDate, b: CalendarDate) {
    a.year < b.year || (a.year == b.year && (a.month < b.month || (a.month == b.month && a.day < b.day)))
  }

  /**
   * The date a `Date` settles on for a year, a month that may lie outside
   * 0..11 and a day of month: the month carries into the year, and a day
   * past the month's end runs into the following month.
   */
  function Settle(year: int, month: int, day: int): (d: CalendarDate)
    requires 1 <= day <= 31
    ensures ValidDate(d)
    ensures day <= 28 ==> d == CalendarDate(year + month / 12, month % 12, day)
    ensures MonthIndex(d) == year * 12 + month || MonthIndex(d) == year * 12 + month + 1
  {
    var y := year + month / 12;
    var m := month % 12;
    if day <= DaysInMonth(y, m) then CalendarDate(y, m, day)
    else if m == 11 then CalendarDate(y + 1, 0, day - DaysInMonth(y, m))
    else CalendarDate(y, m + 1, day - DaysInMonth(y, m))
  }

  /** `date.setMonth(month)`. */
  function SetMonth(d: CalendarDate, month: int): CalendarDate
    requires 1 <= d.day <= 31
  {
    Settle(d.year, month, d.day)
  }

  /** `date.setFullYear(year)`. */
  function SetFullYear(d: CalendarDate, year: int): CalendarDate
    requires 1 <= d.day <= 31
  {
    Settle(year, d.month, d.day)
  }

  /** How far back each period reaches; an unknown period means three months. */
  function MonthsBack(period: string): (k: int)
    ensures k == 3 || k == 6 || k == 12
    ensures period == "6m" ==> k == 6
    ensures period == "1y" ==> k == 12
    ensures period != "6m" && period != "1y" ==> k == 3
  {
    if period == "6m" then 6 else if period == "1y" then 12 else 3
  }

  /** `getStartDate`: today moved back by the period. */
  method GetStartDate(period: string, today: CalendarDate) returns (date: CalendarDate)
    requires ValidDate(today)
    ensures ValidDate(date)
    ensures Before(date, today)
    ensures MonthIndex(today) - MonthsBack(period) <= MonthIndex(date) <= MonthIndex(today) - MonthsBack(period) + 1
    ensures today.day <= 28 ==> MonthIndex(date) == MonthIndex(today) - MonthsBack(period) && date.day == today.day
  {
    date := today;
    if period == "3m" {
      date := SetMonth(date, date.month - 3);
    } else if period == "6m" {
      date := SetMonth(date, date.month - 6);
    } else if period == "1y" {
      date := SetFullYear(date, date.year - 1);
    } else {
      date := SetMonth(date, date.month - 3);
    }
  }

  // ---------------------------------------------------------------------
  // The ticker list
  // ---------------------------------------------------------------------

  /** `s.split(',')`: one more part than there are commas. */
  function SplitCommas(s: string): (parts: seq<string>)
    ensures |parts| >= 1
    ensures forall i :: 0 <= i < |parts| ==> ',' !in parts[i]
  {
    if s == [] then [""]
    else if s[0] == ',' then [""] + SplitCommas(s[1..])
    else
      var rest := SplitCommas(s[1..]);
      [[s[0]] + rest[0]] + rest[1..]
  }

  function JoinCommas(parts: seq<string>): string
    requires |parts| >= 1
  {
    if |parts| == 1 then parts[0] else parts[0] + "," + JoinCommas(parts[1..])
  }

  /** Joining the parts with commas gives the string back, so the split loses nothing. */
  lemma {:induction false} SplitJoin(s: string)
    ensures JoinCommas(SplitCommas(s)) == s
  {
    if s != [] {
      SplitJoin(s[1..]);
      var rest := SplitCommas(s[1..]);
      if s[0] == ',' {
        assert SplitCommas(s) == [""] + rest;
        assert SplitCommas(s)[1..] == rest;
        assert s == [','] + s[1..];
      } else {
        var parts := SplitCommas(s);
        assert parts == [[s[0]] + rest[0]] + rest[1..];
        if |rest| == 1 {
          assert s == [s[0]] + rest[0];
        } else {
          assert parts[1..] == rest[1..];
          assert JoinCommas(rest) == rest[0] + "," + JoinCommas(rest[1..]);
          assert s == [s[0]] + s[1..];
        }
      }
    }
  }

  /** Parts joined with commas split back into the same parts. */
  lemma {:induction false} JoinSplit(parts: seq<string>)
    requires |parts| >= 1
    requires forall i :: 0 <= i < |parts| ==> ',' !in parts[i]
    ensures SplitCommas(JoinCommas(parts)) == parts
  {
    if |parts| == 1 {
      SplitNoComma(parts[0]);
    } else {
      JoinSplit(parts[1..]);
      SplitPrefix(parts[0], JoinCommas(parts[1..]));
      assert parts == [parts[0]] + parts[1..];
    }
  }

  lemma {:induction false} SplitNoComma(s: string)
    requires ',' !in s
    ensures SplitCommas(s) == [s]
  {
    if s != [] {
      SplitNoComma(s[1..]);
      assert s == [s[0]] + s[1..];
    }
  }

  lemma {:induction false} SplitPrefix(head: string, tail: string)
    requires ',' !in head
    ensures SplitCommas(head + "," + tail) == [head] + SplitCommas(tail)
  {
    var s := head + "," + tail;
    if head == [] {
      assert s[0] == ',' && s[1..] == tail;
    } else {
      assert s[0] == head[0];
      assert s[1..] == head[1..] + "," + tail;
      SplitPrefix(head[1..], tail);
      assert head == [head[0]] + head[1..];
    }
  }

  // ---------------------------------------------------------------------
  // Series, normalisation and grouping
  // ---------------------------------------------------------------------

  datatype PriceBar = PriceBar(date: int, close: real)

  /** A rescaled point: the date key and the close as a percentage of the first close. */
  datatype Point = Point(date: int, normalizedPrice: real)

  datatype BacktestPoint = BacktestPoint(date: int, portfolioReturn: real)

  /** The HTTP outcome; the 500 path needs a thrown error and is not modelled. */
  datatype Response = BadRequest | NotFound | Success(data: seq<BacktestPoint>)

  /** The fetched series of one ticker; a failed fetch gives no bars. */
  function SeriesFor(histories: map<string, seq<PriceBar>>, ticker: string): seq<PriceBar> {
    if ticker in histories then histories[ticker] else []
  }

  /** The series of a list of tickers, one per ticker, in order. */
  function FetchAll(tickers: seq<string>, histories: map<string, seq<PriceBar>>): (all: seq<seq<PriceBar>>)
    ensures |all| == |tickers|
    ensures forall i :: 0 <= i < |tickers| ==> all[i] == SeriesFor(histories, tickers[i])
  {
    seq(|tickers|, i requires 0 <= i < |tickers| => SeriesFor(histories, tickers[i]))
  }

  /** `filter(d => d.length > 0)`. */
  function NonEmpty(all: seq<seq<PriceBar>>): (valid: seq<seq<PriceBar>>)
    ensures forall k :: 0 <= k < |valid| ==> |valid[k]| > 0 && valid[k] in all
    ensures forall s :: s in all && |s| > 0 ==> s in valid
    ensures |valid| == 0 <==> forall k :: 0 <= k < |all| ==> |all[k]| == 0
  {
    if all == [] then []
    else
      var rest := NonEmpty(all[1..]);
      assert forall s :: s in all[1..] ==> s in all;
      assert all == [all[0]] + all[1..];
      if |all[0]| > 0 then [all[0]] + rest else rest
  }

  lemma ConcatAssociative<T>(x: seq<T>, y: seq<T>, z: seq<T>)
    ensures x + (y + z) == (x + y) + z
  {
  }

  lemma SplitHead<T>(a: seq<T>, b: seq<T>)
    requires a != []
    ensures a == [a[0]] + a[1..] && a + b == [a[0]] + (a[1..] + b)
  {
  }

  /** One series is kept iff it is non-empty. */
  lemma NonEmptyOne(x: seq<PriceBar>)
    ensures NonEmpty([x]) == if |x| > 0 then [x] else []
  {
  }

  /** The filter looks at the first series, then filters the rest. */
  lemma NonEmptyCons(x: seq<PriceBar>, rest: seq<seq<PriceBar>>)
    ensures NonEmpty([x] + rest) == (if |x| > 0 then [x] else []) + NonEmpty(rest)
  {
    assert ([x] + rest)[1..] == rest;
  }

  /**
   * The filter works piecewise; with NonEmptyOne this determines it, so the
   * series kept appear in their order and with their multiplicity.
   */
  lemma {:induction false} NonEmptyAppend(a: seq<seq<PriceBar>>, b: seq<seq<PriceBar>>)
    ensures NonEmpty(a + b) == NonEmpty(a) + NonEmpty(b)
  {
    if a == [] {
      assert a + b == b;
    } else {
      var head := if |a[0]| > 0 then [a[0]] else [];
      SplitHead(a, b);
      calc {
        NonEmpty(a + b);
        NonEmpty([a[0]] + (a[1..] + b));
        { NonEmptyCons(a[0], a[1..] + b); }
        head + NonEmpty(a[1..] + b);
        { NonEmptyAppend(a[1..], b); }
        head + (NonEmpty(a[1..]) + NonEmpty(b));
        { ConcatAssociative(head, NonEmpty(a[1..]), NonEmpty(b)); }
        (head + NonEmpty(a[1..])) + NonEmpty(b);
        { NonEmptyCons(a[0], a[1..]); }
        NonEmpty([a[0]] + a[1..]) + NonEmpty(b);
        NonEmpty(a) + NonEmpty(b);
      }
    }
  }

  /** A series can be rescaled when its first close is not zero. */
  predicate Rescalable(series: seq<PriceBar>) {
    |series| > 0 ==> series[0].close != 0.0
  }

  /** Every point as a percentage of the series' first close. */
  function Normalize(series: seq<PriceBar>): (pts: seq<Point>)
    requires |series| > 0 && series[0].close != 0.0
    ensures |pts| == |series|
    ensures forall j :: 0 <= j < |series| ==> pts[j].date == series[j].date
    ensures forall j :: 0 <= j < |series| ==> pts[j].normalizedPrice * series[0].close == series[j].close * 100.0
  {
    var firstValue := series[0].close;
    seq(|series|, j requires 0 <= j < |series| => Point(series[j].date, (series[j].close / firstValue) * 100.0))
  }

  /** Each rescaled series starts at 100, and any bar at the first close is at 100. */
  lemma NormalizedStartsAt100(series: seq<PriceBar>, j: nat)
    requires |series| > 0 && series[0].close != 0.0
    requires j < |series| && series[j].close == series[0].close
    ensures Normalize(series)[0].normalizedPrice == 100.0
    ensures Normalize(series)[j].normalizedPrice == 100.0
  {
    var pts := Normalize(series);
    var c := series[0].close;
    assert pts[0].normalizedPrice == (series[0].close / c) * 100.0;
    assert pts[j].normalizedPrice == (series[j].close / c) * 100.0;
    SelfRatioIs100(c);
  }

  /** A close as a percentage of itself is 100. */
  lemma SelfRatioIs100(c: real)
    requires c != 0.0
    ensures (c / c) * 100.0 == 100.0
  {
  }

  function NormalizeAll(valid: seq<seq<PriceBar>>): (normalized: seq<seq<Point>>)
    requires forall k :: 0 <= k < |valid| ==> |valid[k]| > 0 && valid[k][0].close != 0.0
    ensures |normalized| == |valid|
    ensures forall k :: 0 <= k < |valid| ==> normalized[k] == Normalize(valid[k])
  {
    seq(|valid|, k requires 0 <= k < |valid| => Normalize(valid[k]))
  }

  /** All series' points, series after series. */
  function Flatten(normalized: seq<seq<Point>>): seq<Point> {
    if normalized == [] then []
    else Flatten(normalized[..|normalized| - 1]) + normalized[|normalized| - 1]
  }

  lemma FlattenStep(normalized: seq<seq<Point>>, i: nat)
    requires i < |normalized|
    ensures Flatten(normalized[..i + 1]) == Flatten(normalized[..i]) + normalized[i]
  {
    assert normalized[..i + 1][..i] == normalized[..i];
  }

  /** Where a point of the flattened series came from. */
  lemma {:induction false} FlattenOrigin(normalized: seq<seq<Point>>, p: Point) returns (k: nat, j: nat)
    requires p in Flatten(normalized)
    ensures k < |normalized| && j < |normalized[k]| && normalized[k][j] == p
  {
    var init := normalized[..|normalized| - 1];
    var last := normalized[|normalized| - 1];
    assert Flatten(normalized) == Flatten(init) + last;
    if p in last {
      k := |normalized| - 1;
      j :| 0 <= j < |last| && last[j] == p;
    } else {
      k, j := FlattenOrigin(init, p);
      assert init[k] == normalized[k];
    }
  }

  /** One push onto the list of a date, creating it when the date is new. */
  function AddPoint(m: map<int, seq<real>>, p: Point): map<int, seq<real>> {
    m[p.date := (if p.date in m then m[p.date] else []) + [p.normalizedPrice]]
  }

  /** `dailyPricesMap` after pushing the points in order. */
  function Group(pts: seq<Point>): map<int, seq<real>> {
    if pts == [] then map[] else AddPoint(Group(pts[..|pts| - 1]), pts[|pts| - 1])
  }

  /** The prices of the points on a date, in order. */
  function PricesOn(pts: seq<Point>, date: int): seq<real> {
    if pts == [] then []
    else PricesOn(pts[..|pts| - 1], date)
         + (if pts[|pts| - 1].date == date then [pts[|pts| - 1].normalizedPrice] else [])
  }

  function DatesOf(pts: seq<Point>): set<int> {
    set p | p in pts :: p.date
  }

  lemma DatesOfSnoc(pts: seq<Point>, p: Point)
    ensures DatesOf(pts + [p]) == DatesOf(pts) + {p.date}
  {
    forall q | q in pts + [p] ensures q in pts || q == p { }
  }

  predicate DistinctDays(order: seq<int>) {
    forall i, j :: 0 <= i < j < |order| ==> order[i] != order[j]
  }

  /** The keys of `dailyPricesMap` in insertion order: each date where it first occurs. */
  function DateOrder(pts: seq<Point>): (order: seq<int>)
    ensures forall d :: d in order <==> d in DatesOf(pts)
    ensures DistinctDays(order)
  {
    if pts == [] then []
    else
      var init := pts[..|pts| - 1];
      var p := pts[|pts| - 1];
      assert pts == init + [p];
      DatesOfSnoc(init, p);
      var order := DateOrder(init);
      if p.date in order then order else order + [p.date]
  }

  /** Pushing one more point onto the grouping and the key order. */
  lemma GroupStep(done: seq<Point>, more: seq<Point>, j: nat)
    requires j < |more|
    ensures Group(done + more[..j + 1]) == AddPoint(Group(done + more[..j]), more[j])
    ensures DateOrder(done + more[..j + 1]) ==
      if more[j].date in Group(done + more[..j]) then DateOrder(done + more[..j])
      else DateOrder(done + more[..j]) + [more[j].date]
  {
    var pts := done + more[..j + 1];
    assert pts[..|pts| - 1] == done + more[..j];
    assert pts[|pts| - 1] == more[j];
    GroupCollectsPrices(done + more[..j]);
  }

  /** The grouping has a key for each date that occurs, holding that date's prices in order. */
  lemma {:induction false} GroupCollectsPrices(pts: seq<Point>)
    ensures Group(pts).Keys == DatesOf(pts)
    ensures forall d :: d in Group(pts) ==> Group(pts)[d] == PricesOn(pts, d) && |Group(pts)[d]| > 0
  {
    if pts != [] {
      var init := pts[..|pts| - 1];
      var p := pts[|pts| - 1];
      GroupCollectsPrices(init);
      assert pts == init + [p];
      DatesOfSnoc(init, p);
      forall d | d in Group(pts) ensures Group(pts)[d] == PricesOn(pts, d) && |Group(pts)[d]| > 0 {
        if d == p.date {
          if p.date !in Group(init) {
            assert p.date !in DatesOf(init);
            PricesOnAbsent(init, d);
          }
        }
      }
    }
  }

  lemma {:induction false} PricesOnAbsent(pts: seq<Point>, date: int)
    requires date !in DatesOf(pts)
    ensures PricesOn(pts, date) == []
  {
    if pts != [] {
      var init := pts[..|pts| - 1];
      assert DatesOf(init) <= DatesOf(pts);
      PricesOnAbsent(init, date);
    }
  }

  /** Every price listed on a date is the price of a point on that date. */
  lemma {:induction false} PricesOnAllAt(pts: seq<Point>, date: int, c: real)
    requires forall p :: p in pts && p.date == date ==> p.normalizedPrice == c
    ensures forall i :: 0 <= i < |PricesOn(pts, date)| ==> PricesOn(pts, date)[i] == c
  {
    if pts != [] {
      PricesOnAllAt(pts[..|pts| - 1], date, c);
    }
  }

  // ---------------------------------------------------------------------
  // Averaging and ordering
  // ---------------------------------------------------------------------

  function Mean(prices: seq<real>): real
    requires |prices| > 0
  {
    Sum(prices) / |prices| as real
  }

  /** `Array.from(dailyPricesMap.entries()).map(...)`: one entry per key, in key order. */
  function Entries(order: seq<int>, groups: map<int, seq<real>>): (entries: seq<BacktestPoint>)
    requires forall i :: 0 <= i < |order| ==> order[i] in groups && |groups[order[i]]| > 0
    ensures |entries| == |order|
    ensures forall i :: 0 <= i < |order| ==>
      entries[i].date == order[i] && entries[i].portfolioReturn == Mean(groups[order[i]]) - 100.0
  {
    if order == [] then []
    else
      [BacktestPoint(order[0], Mean(groups[order[0]]) - 100.0)] + Entries(order[1..], groups)
  }

  predicate ByDate(s: seq<BacktestPoint>) {
    forall i, j :: 0 <= i < j < |s| ==> s[i].date <= s[j].date
  }

  predicate StrictlyByDate(s: seq<BacktestPoint>) {
    forall i, j :: 0 <= i < j < |s| ==> s[i].date < s[j].date
  }

  predicate DistinctDates(s: seq<BacktestPoint>) {
    forall i, j :: 0 <= i < j < |s| ==> s[i].date != s[j].date
  }

  /** One step of a stable sort by date: `p` goes before the first entry not earlier than it. */
  function InsertByDate(p: BacktestPoint, s: seq<BacktestPoint>): (r: seq<BacktestPoint>)
    ensures |r| == |s| + 1
    ensures forall x :: x in r <==> x == p || x in s
  {
    if s == [] then [p]
    else if p.date <= s[0].date then [p] + s
    else
      assert s == [s[0]] + s[1..];
      [s[0]] + InsertByDate(p, s[1..])
  }

  /** Every entry after the head of a list sorted by date is not earlier than the head. */
  lemma HeadIsEarliest(s: seq<BacktestPoint>, x: BacktestPoint)
    requires ByDate(s) && |s| > 0 && x in s[1..]
    ensures s[0].date <= x.date
    ensures StrictlyByDate(s) ==> s[0].date < x.date
  {
    var k :| 0 <= k < |s[1..]| && s[1..][k] == x;
    assert s[k + 1] == x;
  }

  /** Putting an entry in front of a list sorted by date, when it is not later than any of them. */
  lemma ConsByDate(h: BacktestPoint, rest: seq<BacktestPoint>, strict: bool)
    requires if strict then StrictlyByDate(rest) else ByDate(rest)
    requires forall x :: x in rest ==> if strict then h.date < x.date else h.date <= x.date
    ensures if strict then StrictlyByDate([h] + rest) else ByDate([h] + rest)
  {
    var r := [h] + rest;
    forall i, j | 0 <= i < j < |r| ensures if strict then r[i].date < r[j].date else r[i].date <= r[j].date {
      assert r[j] == rest[j - 1];
      assert rest[j - 1] in rest;
      if i > 0 {
        assert r[i] == rest[i - 1];
      }
    }
  }

  lemma {:induction false} InsertKeepsOrder(p: BacktestPoint, s: seq<BacktestPoint>)
    requires ByDate(s)
    ensures ByDate(InsertByDate(p, s))
  {
    if s == [] {
    } else if p.date <= s[0].date {
      forall x | x in s ensures p.date <= x.date {
        if x != s[0] {
          assert s == [s[0]] + s[1..];
          HeadIsEarliest(s, x);
        }
      }
      ConsByDate(p, s, false);
    } else {
      assert s == [s[0]] + s[1..];
      InsertKeepsOrder(p, s[1..]);
      var rest := InsertByDate(p, s[1..]);
      forall x | x in rest ensures s[0].date <= x.date {
        if x != p {
          HeadIsEarliest(s, x);
        }
      }
      ConsByDate(s[0], rest, false);
    }
  }

  lemma {:induction false} InsertKeepsStrictOrder(p: BacktestPoint, s: seq<BacktestPoint>)
    requires StrictlyByDate(s) && forall x :: x in s ==> x.date != p.date
    ensures StrictlyByDate(InsertByDate(p, s))
  {
    assert ByDate(s);
    if s == [] {
    } else if p.date <= s[0].date {
      forall x | x in s ensures p.date < x.date {
        if x != s[0] {
          assert s == [s[0]] + s[1..];
          HeadIsEarliest(s, x);
        }
      }
      ConsByDate(p, s, true);
    } else {
      assert s == [s[0]] + s[1..];
      assert StrictlyByDate(s[1..]);
      InsertKeepsStrictOrder(p, s[1..]);
      var rest := InsertByDate(p, s[1..]);
      forall x | x in rest ensures s[0].date < x.date {
        if x != p {
          HeadIsEarliest(s, x);
        }
      }
      ConsByDate(s[0], rest, true);
    }
  }

  /** `sort((a, b) => a.date - b.date)`: the same entries, in date order. */
  function SortByDate(s: seq<BacktestPoint>): (r: seq<BacktestPoint>)
    ensures |r| == |s|
    ensures forall x :: x in r <==> x in s
    ensures ByDate(r)
    ensures DistinctDates(s) ==> StrictlyByDate(r)
  {
    if s == [] then []
    else
      assert s == [s[0]] + s[1..];
      var rest := SortByDate(s[1..]);
      assert DistinctDates(s) ==> forall x :: x in rest ==> x.date != s[0].date;
      InsertKeepsOrder(s[0], rest);
      if DistinctDates(s) then
        InsertKeepsStrictOrder(s[0], rest);
        InsertByDate(s[0], rest)
      else InsertByDate(s[0], rest)
  }

  /** A query parameter that is present and not empty. */
  predicate Given(param: Option<string>) {
    param.Some? && param.value != ""
  }

  /** Rescaling is defined on every series the histories can hold. */
  predicate AllRescalable(histories: map<string, seq<PriceBar>>) {
    forall t :: t in histories ==> Rescalable(histories[t])
  }

  lemma ValidAreRescalable(tickers: seq<string>, histories: map<string, seq<PriceBar>>)
    requires AllRescalable(histories)
    ensures var valid: seq<seq<PriceBar>> := NonEmpty(FetchAll(tickers, histories));
      forall k :: 0 <= k < |valid| ==> |valid[k]| > 0 && valid[k][0].close != 0.0
  {
    var all: seq<seq<PriceBar>> := FetchAll(tickers, histories);
    var valid: seq<seq<PriceBar>> := NonEmpty(all);
    forall k | 0 <= k < |valid| ensures |valid[k]| > 0 && valid[k][0].close != 0.0 {
      var i :| 0 <= i < |all| && all[i] == valid[k];
      assert valid[k] == SeriesFor(histories, tickers[i]);
    }
  }

  /** The points to group for a request: the rescaled non-empty series of the listed tickers. */
  function PointsOf(tickers: string, histories: map<string, seq<PriceBar>>): seq<Point>
    requires AllRescalable(histories)
  {
    var valid := NonEmpty(FetchAll(SplitCommas(tickers), histories));
    ValidAreRescalable(SplitCommas(tickers), histories);
    Flatten(NormalizeAll(valid))
  }

  /** The sorted entries of a grouping. */
  function Returns(pts: seq<Point>): seq<BacktestPoint>
  {
    GroupCollectsPrices(pts);
    SortByDate(Entries(DateOrder(pts), Group(pts)))
  }

  /** `getBacktestData` as a function of the query and the fetched histories. */
  function Backtest(tickers: Option<string>, period: Option<string>, histories: map<string, seq<PriceBar>>): (r: Response)
    requires AllRescalable(histories)
    ensures r == BadRequest <==> !Given(tickers) || !Given(period)
    ensures r.Success? ==> Given(tickers) && r.data == Returns(PointsOf(tickers.value, histories))
  {
    if !Given(tickers) || !Given(period) then BadRequest
    else if |NonEmpty(FetchAll(SplitCommas(tickers.value), histories))| == 0 then NotFound
    else Success(Returns(PointsOf(tickers.value, histories)))
  }

  /** The request is refused with 400 exactly when a parameter is missing or empty. */
  lemma BadRequestWhenMissing(tickers: Option<string>, period: Option<string>, histories: map<string, seq<PriceBar>>)
    requires AllRescalable(histories)
    ensures Backtest(tickers, period, histories) == BadRequest <==> !Given(tickers) || !Given(period)
  {
  }

  /** With both parameters given, 404 exactly when every listed ticker's series is empty. */
  lemma NotFoundWhenNothingFetched(tickers: string, period: string, histories: map<string, seq<PriceBar>>)
    requires AllRescalable(histories) && tickers != "" && period != ""
    ensures Backtest(Some(tickers), Some(period), histories) == NotFound <==>
      forall t :: t in SplitCommas(tickers) ==> SeriesFor(histories, t) == []
  {
    var parts := SplitCommas(tickers);
    var all := FetchAll(parts, histories);
    if forall t :: t in parts ==> SeriesFor(histories, t) == [] {
      assert forall k :: 0 <= k < |all| ==> |all[k]| == 0 by {
        forall k | 0 <= k < |all| ensures |all[k]| == 0 {
          assert parts[k] in parts;
        }
      }
    } else {
      var t :| t in parts && SeriesFor(histories, t) != [];
      var i :| 0 <= i < |parts| && parts[i] == t;
      assert |all[i]| > 0;
    }
  }

  /** Sorting the entries of distinct keys orders them strictly and keeps each key's mean. */
  lemma SortedEntriesShape(order: seq<int>, groups: map<int, seq<real>>)
    requires DistinctDays(order)
    requires forall i :: 0 <= i < |order| ==> order[i] in groups && |groups[order[i]]| > 0
    ensures var data := SortByDate(Entries(order, groups));
      && StrictlyByDate(data)
      && (forall d :: d in order <==> exists i :: 0 <= i < |data| && data[i].date == d)
      && (forall i :: 0 <= i < |data| ==>
            data[i].date in groups && |groups[data[i].date]| > 0
            && data[i].portfolioReturn == Mean(groups[data[i].date]) - 100.0)
  {
    var entries := Entries(order, groups);
    var data := SortByDate(entries);
    assert DistinctDates(entries);
    forall d | d in order ensures exists i :: 0 <= i < |data| && data[i].date == d {
      var k :| 0 <= k < |order| && order[k] == d;
      assert entries[k] in data;
      var i :| 0 <= i < |data| && data[i] == entries[k];
    }
    forall i | 0 <= i < |data|
      ensures data[i].date in order
      ensures data[i].date in groups && |groups[data[i].date]| > 0 && data[i].portfolioReturn == Mean(groups[data[i].date]) - 100.0
    {
      assert data[i] in entries;
      var k :| 0 <= k < |entries| && entries[k] == data[i];
    }
  }

  /**
   * The sorted entries list every date of the points once, in chronological
   * order, each with the mean of that date's prices minus 100.
   */
  lemma ReturnsShape(pts: seq<Point>)
    ensures var data := Returns(pts);
      && (forall i, j :: 0 <= i < j < |data| ==> data[i].date < data[j].date)
      && (forall d :: d in DatesOf(pts) <==> exists i :: 0 <= i < |data| && data[i].date == d)
      && (forall i :: 0 <= i < |data| ==>
            |PricesOn(pts, data[i].date)| > 0
            && data[i].portfolioReturn == Mean(PricesOn(pts, data[i].date)) - 100.0)
  {
    var order := DateOrder(pts);
    var groups := Group(pts);
    OrderedDatesGrouped(pts);
    SortedEntriesShape(order, groups);
    var data := Returns(pts);
    assert data == SortByDate(Entries(order, groups));
    forall d ensures d in DatesOf(pts) <==> exists i :: 0 <= i < |data| && data[i].date == d {
      assert d in order <==> d in DatesOf(pts);
    }
    GroupCollectsPrices(pts);
    forall i | 0 <= i < |data|
      ensures |PricesOn(pts, data[i].date)| > 0
      ensures data[i].portfolioReturn == Mean(PricesOn(pts, data[i].date)) - 100.0
    {
      assert groups[data[i].date] == PricesOn(pts, data[i].date);
    }
  }

  /** Every date in the order of first appearance has a non-empty group. */
  lemma OrderedDatesGrouped(pts: seq<Point>)
    ensures forall i :: 0 <= i < |DateOrder(pts)| ==> DateOrder(pts)[i] in Group(pts) && |Group(pts)[DateOrder(pts)[i]]| > 0
  {
    GroupCollectsPrices(pts);
    var order := DateOrder(pts);
    forall i | 0 <= i < |order| ensures order[i] in Group(pts) && |Group(pts)[order[i]]| > 0 {
      assert order[i] in order;
    }
  }

  /** A date on which every rescaled price is 100, such as one where every series is at its first close, returns 0. */
  lemma FlatDateReturnsZero(pts: seq<Point>, i: nat)
    requires i < |Returns(pts)|
    requires forall p :: p in pts && p.date == Returns(pts)[i].date ==> p.normalizedPrice == 100.0
    ensures Returns(pts)[i].portfolioReturn == 0.0
  {
    var entry := Returns(pts)[i];
    ReturnAt(pts, i);
    PricesOnAllAt(pts, entry.date, 100.0);
    MeanConst(PricesOn(pts, entry.date), 100.0);
  }

  /** One entry of the returns: the mean of that date's prices, less 100. */
  lemma ReturnAt(pts: seq<Point>, i: nat)
    requires i < |Returns(pts)|
    ensures |PricesOn(pts, Returns(pts)[i].date)| > 0
    ensures Returns(pts)[i].portfolioReturn == Mean(PricesOn(pts, Returns(pts)[i].date)) - 100.0
  {
    ReturnsShape(pts);
  }

  /** The mean of equal prices is that price. */
  lemma MeanConst(prices: seq<real>, c: real)
    requires |prices| > 0
    requires forall i :: 0 <= i < |prices| ==> prices[i] == c
    ensures Mean(prices) == c
  {
    SumConst(prices, c);
    var n := |prices| as real;
    assert (n * c) / n == c;
  }

  /** Creating the list when the date is new and then pushing onto it is one `AddPoint`. */
  lemma PushIsAddPoint(m: map<int, seq<real>>, p: Point)
    ensures var m1 := if p.date in m then m else m[p.date := []];
      m1[p.date := m1[p.date] + [p.normalizedPrice]] == AddPoint(m, p)
  {
    if p.date !in m {
      assert [] + [p.normalizedPrice] == [p.normalizedPrice];
    }
  }

  /** The inner `forEach`: one series' points pushed onto the Map, given as entries and key order. */
  method PushSeries(entries: map<int, seq<real>>, keys: seq<int>, ghost done: seq<Point>, stockHistory: seq<Point>)
    returns (dailyPricesMap: map<int, seq<real>>, dateOrder: seq<int>)
    requires entries == Group(done) && keys == DateOrder(done)
    ensures dailyPricesMap == Group(done + stockHistory)
    ensures dateOrder == DateOrder(done + stockHistory)
  {
    dailyPricesMap, dateOrder := entries, keys;
    var j := 0;
    assert done + stockHistory[..0] == done;
    while j < |stockHistory|
      invariant 0 <= j <= |stockHistory|
      invariant dailyPricesMap == Group(done + stockHistory[..j])
      invariant dateOrder == DateOrder(done + stockHistory[..j])
    {
      var day := stockHistory[j];
      GroupStep(done, stockHistory, j);
      PushIsAddPoint(dailyPricesMap, day);
      if day.date !in dailyPricesMap {
        dailyPricesMap := dailyPricesMap[day.date := []];
        dateOrder := dateOrder + [day.date];
      }
      dailyPricesMap := dailyPricesMap[day.date := dailyPricesMap[day.date] + [day.normalizedPrice]];
      j := j + 1;
    }
    assert stockHistory[..j] == stockHistory;
  }

  /** The outer `forEach` that fills `dailyPricesMap`, series after series. */
  method GroupByDate(normalizedData: seq<seq<Point>>) returns (dailyPricesMap: map<int, seq<real>>, dateOrder: seq<int>)
    ensures dailyPricesMap == Group(Flatten(normalizedData))
    ensures dateOrder == DateOrder(Flatten(normalizedData))
  {
    dailyPricesMap := map[];
    dateOrder := [];
    var i := 0;
    while i < |normalizedData|
      invariant 0 <= i <= |normalizedData|
      invariant dailyPricesMap == Group(Flatten(normalizedData[..i]))
      invariant dateOrder == DateOrder(Flatten(normalizedData[..i]))
    {
      dailyPricesMap, dateOrder := PushSeries(dailyPricesMap, dateOrder, Flatten(normalizedData[..i]), normalizedData[i]);
      FlattenStep(normalizedData, i);
      i := i + 1;
    }
    assert normalizedData[..i] == normalizedData;
  }

  /** The request handler: the checks, the rescaling, the grouping loops, the averaging and the sort. */
  method GetBacktestData(tickers: Option<string>, period: Option<string>, histories: map<string, seq<PriceBar>>)
    returns (response: Response)
    requires AllRescalable(histories)
    ensures response == Backtest(tickers, period, histories)
  {
    if !Given(tickers) || !Given(period) {
      return BadRequest;
    }
    var tickerArray := SplitCommas(tickers.value);
    var allHistoricalData := FetchAll(tickerArray, histories);
    var validHistoricalData := NonEmpty(allHistoricalData);
    if |validHistoricalData| == 0 {
      return NotFound;
    }
    ValidAreRescalable(tickerArray, histories);
    var normalizedData := NormalizeAll(validHistoricalData);

    var dailyPricesMap, dateOrder := GroupByDate(normalizedData);
    assert Flatten(normalizedData) == PointsOf(tickers.value, histories);
    OrderedDatesGrouped(Flatten(normalizedData));
    var backtestResult := SortByDate(Entries(dateOrder, dailyPricesMap));
    response := Success(backtestResult);
  }
}
