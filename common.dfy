/** Vocabulary shared by both layouts of the price cache: the rows the market-data
    provider returns, the injected provider call, calendar arithmetic on
    timestamps, and facts about sequences of dates. */
module Common {

  datatype Option<T> = None | Some(value: T)

  /** Why a per-ticker operation raised instead of returning a series. */
  datatype Error =
    | FetchError         // the provider call raised
    | NoLatestDate       // the local series is empty, so it has no latest date
    | MissingDateColumn  // the local file has no Date column to index by
    | MissingColumns     // the combined table lacks a column the caller selects

  datatype Result<T> = Ok(value: T) | Err(error: Error)

  /** A price as the provider reports it. The cache only moves prices around and
      never computes with them, so their representation does not matter. */
  type Price = int

  /** The non-date columns of a provider row. */
  datatype Prices = Prices(open: Price, high: Price, low: Price, close: Price, adjClose: Price, volume: int)

  /** A row as the provider returns it: the Date index and the price columns;
      the provider adds no Ticker column. */
  datatype Bar = Bar(date: int, prices: Prices)

  /** The window of one provider request. An absent `start` asks for the whole
      available history; `end` is exclusive. */
  datatype Request = Request(start: Option<int>, end: int)

  /** What the provider call produced: it raised, or it returned (possibly no) rows. */
  datatype FetchResult = FetchFailed | Rows(bars: seq<Bar>)

  /** The market-data provider, injected: its answer to a ticker and a window. */
  type Remote = (string, Request) -> FetchResult

  const SecondsPerDay := 86400

  /** The calendar day (days since the epoch) that contains the instant `t`
      (seconds since the epoch, in the time zone of the clock that gave it). */
  function DayOf(t: int): (d: int)
    ensures d * SecondsPerDay <= t < (d + 1) * SecondsPerDay
  {
    t / SecondsPerDay
  }

  /** The instant `t` with its time of day dropped: midnight of its day. */
  function Midnight(t: int): (m: int)
    ensures m <= t < m + SecondsPerDay
    ensures m % SecondsPerDay == 0
  {
    DayOf(t) * SecondsPerDay
  }

  /** Midnight is a projection: an instant already at midnight stays put. */
  lemma MidnightIdempotent(t: int)
    ensures Midnight(Midnight(t)) == Midnight(t)
  {
    var m := Midnight(t);
    assert m == DayOf(t) * SecondsPerDay;
    assert DayOf(m) == DayOf(t);
  }

  /** The Date column of a sequence of provider rows. */
  function BarDates(bars: seq<Bar>): (ds: seq<int>)
    ensures |ds| == |bars|
    ensures forall i :: 0 <= i < |bars| ==> ds[i] == bars[i].date
  {
    seq(|bars|, i requires 0 <= i < |bars| => bars[i].date)
  }

  lemma BarDatesAppend(a: seq<Bar>, b: seq<Bar>)
    ensures BarDates(a + b) == BarDates(a) + BarDates(b)
  {
    assert forall i :: 0 <= i < |a + b| ==> BarDates(a + b)[i] == (BarDates(a) + BarDates(b))[i];
  }

  predicate StrictlyIncreasing(ds: seq<int>)
  {
    forall i, j :: 0 <= i < j < |ds| ==> ds[i] < ds[j]
  }

  predicate Distinct(ds: seq<int>)
  {
    forall i, j :: 0 <= i < j < |ds| ==> ds[i] != ds[j]
  }

  /** The latest of a non-empty sequence of dates. */
  function Max(ds: seq<int>): (m: int)
    requires ds != []
    ensures m in ds
    ensures forall i :: 0 <= i < |ds| ==> ds[i] <= m
  {
    if |ds| == 1 then ds[0]
    else
      var rest := Max(ds[1..]);
      if ds[0] >= rest then ds[0] else rest
  }

  /** Putting a new date in front of distinct dates keeps them distinct, and
      only a new date does. */
  lemma DistinctCons(x: int, ds: seq<int>)
    ensures Distinct([x] + ds) <==> x !in ds && Distinct(ds)
  {
    var c := [x] + ds;
    if Distinct(c) {
      forall i, j | 0 <= i < j < |ds|
        ensures ds[i] != ds[j]
      {
        assert ds[i] == c[i + 1] && ds[j] == c[j + 1];
      }
      forall j | 0 <= j < |ds|
        ensures ds[j] != x
      {
        assert ds[j] == c[j + 1] && c[0] == x;
      }
    }
    if x !in ds && Distinct(ds) {
      forall i, j | 0 <= i < j < |c|
        ensures c[i] != c[j]
      {
        assert c[j] == ds[j - 1];
        if i > 0 {
          assert c[i] == ds[i - 1];
        }
      }
    }
  }

  /** Strictly increasing dates have no duplicates. */
  lemma IncreasingIsDistinct(ds: seq<int>)
    requires StrictlyIncreasing(ds)
    ensures Distinct(ds)
  {
  }

  /** Appending a strictly increasing run that starts after the latest date
      keeps the whole sequence strictly increasing. */
  lemma IncreasingAppend(a: seq<int>, b: seq<int>)
    requires StrictlyIncreasing(a) && StrictlyIncreasing(b)
    requires a != [] && b != [] ==> Max(a) < b[0]
    ensures StrictlyIncreasing(a + b)
  {
    forall i, j | 0 <= i < j < |a + b|
      ensures (a + b)[i] < (a + b)[j]
    {
      if j >= |a| && i < |a| {
        assert (a + b)[i] == a[i] <= Max(a);
        assert b[0] <= b[j - |a|] == (a + b)[j];
      }
    }
  }

  /** Appending rows never lowers the latest date. */
  lemma MaxAppend(a: seq<int>, b: seq<int>)
    requires a != []
    ensures Max(a + b) >= Max(a)
  {
    var k :| 0 <= k < |a| && a[k] == Max(a);
    assert (a + b)[k] == a[k];
  }
}
