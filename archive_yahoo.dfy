/** The complete synchroniser of the earlier layout
    (archive/src-20241001/data_sources/YahooFinanceSource.py). One source object
    serves a whole run: it keeps the ticker files of its data directory and
    brings one ticker's series up to date per call. Dates are calendar days
    (days since the epoch); the run's today and yesterday are fixed when the
    object is made. */
module ArchiveYahooFinance {
  import opened Common

  /** A row handed back to the caller: a stored row stamped with its Ticker
      column. The files themselves never hold a Ticker column, because the
      stamp happens after the file is written. */
  datatype Row = Row(date: int, ticker: string, prices: Prices)

  /** What one call did: the provider request it made (if any), the new content
      of the ticker's file (if it wrote one) and the series returned, or the
      error that escaped. */
  datatype Step<T> = Step(request: Option<Request>, write: Option<seq<Bar>>, result: Result<T>)

  /** `data["Ticker"] = ticker`: every row gets the ticker; nothing else changes.
      The newer layout has its own `YahooFinance.Stamp`, into a row whose
      Ticker cell may be empty; here every returned row is stamped. */
  function Stamp(bars: seq<Bar>, ticker: string): (rows: seq<Row>)
    ensures |rows| == |bars|
    ensures forall i :: 0 <= i < |bars| ==>
              rows[i].date == bars[i].date && rows[i].ticker == ticker && rows[i].prices == bars[i].prices
  {
    seq(|bars|, i requires 0 <= i < |bars| => Row(bars[i].date, ticker, bars[i].prices))
  }

  /** The ticker's stored series; no file reads as no rows. */
  function Stored(files: map<string, seq<Bar>>, ticker: string): seq<Bar>
  {
    if ticker in files then files[ticker] else []
  }

  /** The files after a step: its write, if any, replaces that ticker's file. */
  function Apply(files: map<string, seq<Bar>>, ticker: string, write: Option<seq<Bar>>): map<string, seq<Bar>>
  {
    if write.Some? then files[ticker := write.value] else files
  }

  /** The latest local date, when there is one. */
  function Latest(files: map<string, seq<Bar>>, ticker: string): Option<int>
  {
    if Stored(files, ticker) == [] then None else Some(Max(BarDates(Stored(files, ticker))))
  }

  /** When a sync must ask the provider: the ticker has no file, or its latest
      date is before yesterday. */
  predicate NeedsFetch(files: map<string, seq<Bar>>, ticker: string, yesterday: int)
  {
    ticker !in files || (Latest(files, ticker).Some? && Latest(files, ticker).value < yesterday)
  }

  /** When an answer is worth keeping: it has rows and, if there were local
      rows, its first row is after the latest of them. */
  predicate Accepts(files: map<string, seq<Bar>>, ticker: string, answer: FetchResult)
  {
    && answer.Rows?
    && answer.bars != []
    && (Latest(files, ticker).Some? ==> answer.bars[0].date > Latest(files, ticker).value)
  }

  /** `_fetch_full_history`: everything up to today; a non-empty answer is
      written, a raising call yields an empty frame. */
  function FullHistory(ticker: string, today: int, remote: Remote): Step<seq<Bar>>
  {
    var request := Request(None, today);
    match remote(ticker, request)
    case FetchFailed => Step(Some(request), None, Ok([]))
    case Rows(bars) => Step(Some(request), if bars == [] then None else Some(bars), Ok(bars))
  }

  /** `_update_existing_data` on the series read from the ticker's file. */
  function Update(local: seq<Bar>, ticker: string, today: int, yesterday: int, remote: Remote): Step<seq<Bar>>
  {
    if local == [] then
      // the latest date of an empty index is NaT, and formatting it raises
      Step(None, None, Err(NoLatestDate))
    else
      var latest := Max(BarDates(local));
      if latest >= yesterday then Step(None, None, Ok(local))
      else
        var request := Request(Some(latest + 1), today);
        match remote(ticker, request)
        case FetchFailed => Step(Some(request), None, Ok(local))
        case Rows(bars) =>
          if bars != [] && bars[0].date > latest then Step(Some(request), Some(local + bars), Ok(local + bars))
          else Step(Some(request), None, Ok(local))
  }

  /** `fetch_ticker_data`: update an existing file or fetch the full history,
      then stamp the result with the ticker. */
  function Sync(files: map<string, seq<Bar>>, ticker: string, today: int, yesterday: int, remote: Remote): Step<seq<Row>>
  {
    var step := if ticker in files then Update(files[ticker], ticker, today, yesterday, remote)
                else FullHistory(ticker, today, remote);
    match step.result
    case Ok(bars) => Step(step.request, step.write, Ok(Stamp(bars, ticker)))
    case Err(e) => Step(step.request, step.write, Err(e))
  }

  /** What one sync does, for every store and every provider. */
  lemma SyncBehaviour(files: map<string, seq<Bar>>, ticker: string, today: int, yesterday: int, remote: Remote)
    ensures var s := Sync(files, ticker, today, yesterday, remote);
            // the provider is called exactly when the ticker is new or stale
            && (s.request.Some? <==> NeedsFetch(files, ticker, yesterday))
            // the window: no start for a new ticker, the day after the latest date otherwise; always up to today
            && (s.request.Some? ==>
                  s.request.value == Request(if ticker in files then Some(Latest(files, ticker).value + 1) else None, today))
            // the file is written exactly when the provider's answer is accepted, and it becomes old rows ++ new rows
            && (s.write.Some? <==> s.request.Some? && Accepts(files, ticker, remote(ticker, s.request.value)))
            && (s.write.Some? ==> s.write.value == Stored(files, ticker) + remote(ticker, s.request.value).bars)
            // an error escapes only for an existing file with no rows
            && (s.result.Err? <==> ticker in files && files[ticker] == [])
            // what is returned is what the ticker's file holds afterwards, stamped with the ticker
            && (s.result.Ok? ==> s.result.value == Stamp(Stored(Apply(files, ticker, s.write), ticker), ticker))
  {
  }

  /** Every returned row carries the ticker it was synced for. */
  lemma ResultIsStamped(files: map<string, seq<Bar>>, ticker: string, today: int, yesterday: int, remote: Remote)
    ensures var s := Sync(files, ticker, today, yesterday, remote);
            s.result.Ok? ==> forall r :: r in s.result.value ==> r.ticker == ticker
  {
    SyncBehaviour(files, ticker, today, yesterday, remote);
  }

  /** A sync writes at most the ticker's own file. */
  lemma OtherTickersUntouched(files: map<string, seq<Bar>>, ticker: string, today: int, yesterday: int, remote: Remote, other: string)
    requires other != ticker
    ensures var after := Apply(files, ticker, Sync(files, ticker, today, yesterday, remote).write);
            (other in after <==> other in files) && (other in files ==> after[other] == files[other])
  {
  }

  /** A sync sees only the ticker's own file: two stores that agree there give the same step. */
  lemma SyncIsLocal(f1: map<string, seq<Bar>>, f2: map<string, seq<Bar>>, ticker: string, today: int, yesterday: int, remote: Remote)
    requires ticker in f1 <==> ticker in f2
    requires ticker in f1 ==> f1[ticker] == f2[ticker]
    ensures Sync(f1, ticker, today, yesterday, remote) == Sync(f2, ticker, today, yesterday, remote)
  {
  }

  /** The invariant of a healthy data directory: every file has rows, and their
      dates strictly increase. */
  predicate WellFormed(files: map<string, seq<Bar>>)
  {
    forall t :: t in files ==> files[t] != [] && StrictlyIncreasing(BarDates(files[t]))
  }

  /** A sync keeps the data directory well formed when the provider's answer
      to the request made has strictly increasing dates: accepted new rows are
      appended after the latest date, so the merged file has no duplicate dates. */
  lemma SyncKeepsStoreWellFormed(files: map<string, seq<Bar>>, ticker: string, today: int, yesterday: int, remote: Remote)
    requires WellFormed(files)
    requires var s := Sync(files, ticker, today, yesterday, remote);
             s.write.Some? ==> StrictlyIncreasing(BarDates(remote(ticker, s.request.value).bars))
    ensures WellFormed(Apply(files, ticker, Sync(files, ticker, today, yesterday, remote).write))
    ensures Sync(files, ticker, today, yesterday, remote).result.Ok?
    ensures Distinct(BarDates(Stored(Apply(files, ticker, Sync(files, ticker, today, yesterday, remote).write), ticker)))
  {
    SyncBehaviour(files, ticker, today, yesterday, remote);
    var s := Sync(files, ticker, today, yesterday, remote);
    var after := Apply(files, ticker, s.write);
    if s.write.Some? {
      var local := Stored(files, ticker);
      var bars := remote(ticker, s.request.value).bars;
      BarDatesAppend(local, bars);
      IncreasingAppend(BarDates(local), BarDates(bars));
    }
    if ticker in after {
      IncreasingIsDistinct(BarDates(after[ticker]));
    }
  }

  /** Coverage never goes backwards: after a sync the ticker's latest stored
      date is at least what it was. */
  lemma CoverageNeverRegresses(files: map<string, seq<Bar>>, ticker: string, today: int, yesterday: int, remote: Remote)
    requires Latest(files, ticker).Some?
    ensures var after := Apply(files, ticker, Sync(files, ticker, today, yesterday, remote).write);
            Latest(after, ticker).Some? && Latest(after, ticker).value >= Latest(files, ticker).value
  {
    SyncBehaviour(files, ticker, today, yesterday, remote);
    var s := Sync(files, ticker, today, yesterday, remote);
    var after := Apply(files, ticker, s.write);
    if s.write.Some? {
      var local := Stored(files, ticker);
      var bars := remote(ticker, s.request.value).bars;
      assert Stored(after, ticker) == local + bars;
      BarDatesAppend(local, bars);
      MaxAppend(BarDates(local), BarDates(bars));
    } else {
      assert after == files;
    }
  }

  /** After a successful update that appended rows, the latest date is that of
      the last new row when the new rows increase. Nothing is assumed about the
      stored rows: the guard puts every new row after all of them. */
  lemma UpdateReachesLastNewDate(files: map<string, seq<Bar>>, ticker: string, today: int, yesterday: int, remote: Remote)
    requires ticker in files
    requires var s := Sync(files, ticker, today, yesterday, remote);
             s.write.Some? && StrictlyIncreasing(BarDates(remote(ticker, s.request.value).bars))
    ensures var s := Sync(files, ticker, today, yesterday, remote);
            var bars := remote(ticker, s.request.value).bars;
            Latest(Apply(files, ticker, s.write), ticker) == Some(bars[|bars| - 1].date)
  {
    SyncBehaviour(files, ticker, today, yesterday, remote);
    var s := Sync(files, ticker, today, yesterday, remote);
    var local := files[ticker];
    var bars := remote(ticker, s.request.value).bars;
    BarDatesAppend(local, bars);
    MaxAfterAppend(BarDates(local), BarDates(bars));
  }

  /** Rows appended after the latest date, in increasing order, end at the new latest date. */
  lemma MaxAfterAppend(a: seq<int>, b: seq<int>)
    requires a != [] && b != [] && StrictlyIncreasing(b) && Max(a) < b[0]
    ensures Max(a + b) == b[|b| - 1]
  {
    var last := b[|b| - 1];
    forall i | 0 <= i < |a + b|
      ensures (a + b)[i] <= last
    {
      if i < |a| {
        assert (a + b)[i] == a[i] <= Max(a);
      } else {
        assert (a + b)[i] == b[i - |a|];
      }
    }
    assert (a + b)[|a + b| - 1] == last;
  }

  /** Idempotence: a second sync right after the first, when the provider has
      nothing new (it raises, answers no rows, or answers rows that do not start
      after the latest stored date), writes nothing and returns the same series. */
  lemma ResyncIsNoOp(files: map<string, seq<Bar>>, ticker: string, today: int, yesterday: int, remote: Remote, quiet: Remote)
    requires var after := Apply(files, ticker, Sync(files, ticker, today, yesterday, remote).write);
             forall q :: !Accepts(after, ticker, quiet(ticker, q))
    ensures var s1 := Sync(files, ticker, today, yesterday, remote);
            var s2 := Sync(Apply(files, ticker, s1.write), ticker, today, yesterday, quiet);
            s2.write.None? && s2.result == s1.result
  {
    var s1 := Sync(files, ticker, today, yesterday, remote);
    var after := Apply(files, ticker, s1.write);
    var s2 := Sync(after, ticker, today, yesterday, quiet);
    SyncBehaviour(files, ticker, today, yesterday, remote);
    SyncBehaviour(after, ticker, today, yesterday, quiet);
    if s2.request.Some? {
      assert !Accepts(after, ticker, quiet(ticker, s2.request.value));
    }
    if ticker !in files && ticker in after {
      assert s1.write.Some?;
    }
  }

  /** `YahooFinanceSource` of the earlier layout. */
  class YahooFinanceSource {
    const today: int
    const yesterday: int
    /** The ticker files under the data directory, by ticker. */
    var files: map<string, seq<Bar>>

    constructor (files: map<string, seq<Bar>>, today: int, yesterday: int)
      ensures this.files == files && this.today == today && this.yesterday == yesterday
    {
      this.today := today;
      this.yesterday := yesterday;
      this.files := files;
    }

    /** `fetch_ticker_data`; `sent` records the provider request made, if any. */
    method FetchTickerData(ticker: string, remote: Remote) returns (data: Result<seq<Row>>, sent: Option<Request>)
      modifies this`files
      ensures var s := Sync(old(files), ticker, today, yesterday, remote);
              data == s.result && sent == s.request && files == Apply(old(files), ticker, s.write)
    {
      var series: Result<seq<Bar>>;
      if ticker in files {
        series, sent := UpdateExistingData(ticker, remote);
      } else {
        series, sent := FetchFullHistory(ticker, remote);
      }
      match series
      case Ok(bars) => data := Ok(Stamp(bars, ticker));
      case Err(e) => data := Err(e);
    }

    /** `_update_existing_data`. */
    method UpdateExistingData(ticker: string, remote: Remote) returns (data: Result<seq<Bar>>, sent: Option<Request>)
      requires ticker in files
      modifies this`files
      ensures var s := Update(old(files)[ticker], ticker, today, yesterday, remote);
              data == s.result && sent == s.request && files == Apply(old(files), ticker, s.write)
    {
      var oldData := files[ticker];
      if oldData == [] {
        return Err(NoLatestDate), None;
      }
      var latest := Max(BarDates(oldData));
      if latest < yesterday {
        var request := Request(Some(latest + 1), today);
        sent := Some(request);
        var newData := remote(ticker, request);
        if newData.Rows? && newData.bars != [] && newData.bars[0].date > latest {
          var updated := oldData + newData.bars;
          files := files[ticker := updated];
          data := Ok(updated);
        } else {
          // an empty or stale answer, or a raising call: keep the old series
          data := Ok(oldData);
        }
      } else {
        data, sent := Ok(oldData), None;
      }
    }

    /** `_fetch_full_history`. */
    method FetchFullHistory(ticker: string, remote: Remote) returns (data: Result<seq<Bar>>, sent: Option<Request>)
      modifies this`files
      ensures var s := FullHistory(ticker, today, remote);
              data == s.result && sent == s.request && files == Apply(old(files), ticker, s.write)
    {
      var request := Request(None, today);
      sent := Some(request);
      var answer := remote(ticker, request);
      if answer.FetchFailed? {
        return Ok([]), sent;
      }
      if answer.bars != [] {
        files := files[ticker := answer.bars];
      }
      data := Ok(answer.bars);
    }
  }
}
