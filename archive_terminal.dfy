/** The batch driver of the earlier layout (archive/src-20241001/DataTerminal.py).
    It fixes the run's today and yesterday once, syncs every requested ticker
    in sorted order through one shared source object, skips (and logs) a
    ticker whose sync raises, concatenates the rest and keeps the columns
    Date, Ticker and Adj Close. The thread pool is modelled as a sequential
    loop in the order the tickers are submitted. */
module ArchiveDataTerminal {
  import opened Common
  import opened Tickers
  import opened ArchiveYahooFinance

  /** A row of the combined output: exactly the columns Date, Ticker, Adj Close. */
  datatype OutRow = OutRow(date: int, ticker: string, adjClose: Price)

  /** `df_return[["Date", "Ticker", "Adj Close"]]`: one output row per row, in
      order, keeping only those three columns. */
  function Project(rows: seq<Row>): (out: seq<OutRow>)
    ensures |out| == |rows|
    ensures forall i :: 0 <= i < |rows| ==>
              out[i].date == rows[i].date && out[i].ticker == rows[i].ticker && out[i].adjClose == rows[i].prices.adjClose
  {
    seq(|rows|, i requires 0 <= i < |rows| => OutRow(rows[i].date, rows[i].ticker, rows[i].prices.adjClose))
  }

  /** The state of a batch: the files, the rows concatenated so far, the tickers
      whose rows were included and the tickers whose error was logged. */
  datatype Batch = Batch(files: map<string, seq<Bar>>, rows: seq<Row>, included: seq<string>, failed: seq<string>)

  /** The batch after syncing `tickers` one after another, each against the
      files its predecessors left. */
  function RunBatch(files: map<string, seq<Bar>>, tickers: seq<string>, today: int, yesterday: int, remote: Remote): Batch
    decreases |tickers|
  {
    if tickers == [] then Batch(files, [], [], [])
    else Dispatch(RunBatch(files, tickers[..|tickers| - 1], today, yesterday, remote), tickers[|tickers| - 1], today, yesterday, remote)
  }

  /** One iteration of the loop: sync `t`, then concatenate its rows or log it. */
  function Dispatch(b: Batch, t: string, today: int, yesterday: int, remote: Remote): (r: Batch)
    ensures var s := Sync(b.files, t, today, yesterday, remote);
            r.files == Apply(b.files, t, s.write)
    // a successful sync adds its rows and is included; a raising one is logged and adds nothing
    ensures var s := Sync(b.files, t, today, yesterday, remote);
            r.rows == b.rows + (if s.result.Ok? then s.result.value else [])
    ensures var s := Sync(b.files, t, today, yesterday, remote);
            if s.result.Ok? then r.included == b.included + [t] && r.failed == b.failed
            else r.included == b.included && r.failed == b.failed + [t]
  {
    var s := Sync(b.files, t, today, yesterday, remote);
    var after := Apply(b.files, t, s.write);
    match s.result
    case Ok(rows) => Batch(after, b.rows + rows, b.included + [t], b.failed)
    case Err(_) => Batch(after, b.rows, b.included, b.failed + [t])
  }

  /** Every dispatched ticker either has its rows included or its error logged,
      once per time it was dispatched. */
  lemma {:induction false} EveryTickerAccountedFor(files: map<string, seq<Bar>>, tickers: seq<string>, today: int, yesterday: int, remote: Remote)
    ensures var b := RunBatch(files, tickers, today, yesterday, remote);
            multiset(b.included) + multiset(b.failed) == multiset(tickers)
    decreases |tickers|
  {
    if tickers != [] {
      var prefix, t := tickers[..|tickers| - 1], tickers[|tickers| - 1];
      EveryTickerAccountedFor(files, prefix, today, yesterday, remote);
      var b := RunBatch(files, prefix, today, yesterday, remote);
      RunBatchLast(files, tickers, today, yesterday, remote);
      DispatchAccountsFor(b, t, today, yesterday, remote);
      LastSplitsMultiset(tickers);
    }
  }

  lemma LastSplitsMultiset(s: seq<string>)
    requires s != []
    ensures multiset(s) == multiset(s[..|s| - 1]) + multiset{s[|s| - 1]}
  {
    assert s == s[..|s| - 1] + [s[|s| - 1]];
  }

  /** The batch ends with the loop step for its last ticker. */
  lemma RunBatchLast(files: map<string, seq<Bar>>, tickers: seq<string>, today: int, yesterday: int, remote: Remote)
    requires tickers != []
    ensures RunBatch(files, tickers, today, yesterday, remote)
            == Dispatch(RunBatch(files, tickers[..|tickers| - 1], today, yesterday, remote), tickers[|tickers| - 1], today, yesterday, remote)
  {
  }

  /** The batch of one more ticker is one more loop step. */
  lemma RunBatchStep(files: map<string, seq<Bar>>, tickers: seq<string>, i: nat, today: int, yesterday: int, remote: Remote)
    requires i < |tickers|
    ensures RunBatch(files, tickers[..i + 1], today, yesterday, remote)
            == Dispatch(RunBatch(files, tickers[..i], today, yesterday, remote), tickers[i], today, yesterday, remote)
  {
    assert tickers[..i + 1][..i] == tickers[..i];
  }

  /** One step records its ticker once, as included or as logged. */
  lemma DispatchAccountsFor(b: Batch, t: string, today: int, yesterday: int, remote: Remote)
    ensures var r := Dispatch(b, t, today, yesterday, remote);
            multiset(r.included) + multiset(r.failed) == multiset(b.included) + multiset(b.failed) + multiset{t}
  {
  }

  /** Each output row comes from an included ticker's series. */
  lemma {:induction false} RowsComeFromIncludedTickers(files: map<string, seq<Bar>>, tickers: seq<string>, today: int, yesterday: int, remote: Remote)
    ensures var b := RunBatch(files, tickers, today, yesterday, remote);
            forall r :: r in b.rows ==> r.ticker in b.included
    decreases |tickers|
  {
    if tickers != [] {
      var prefix := tickers[..|tickers| - 1];
      RowsComeFromIncludedTickers(files, prefix, today, yesterday, remote);
      var b := RunBatch(files, prefix, today, yesterday, remote);
      var t := tickers[|tickers| - 1];
      ResultIsStamped(b.files, t, today, yesterday, remote);
    }
  }

  /** With distinct tickers no ticker is both included and logged as failed, so
      no row of a failed ticker appears in the output. */
  lemma NoRowFromFailedTicker(files: map<string, seq<Bar>>, tickers: seq<string>, today: int, yesterday: int, remote: Remote)
    requires DistinctTickers(tickers)
    ensures var b := RunBatch(files, tickers, today, yesterday, remote);
            forall r :: r in b.rows ==> r.ticker !in b.failed
  {
    var b := RunBatch(files, tickers, today, yesterday, remote);
    EveryTickerAccountedFor(files, tickers, today, yesterday, remote);
    RowsComeFromIncludedTickers(files, tickers, today, yesterday, remote);
    forall r | r in b.rows
      ensures r.ticker !in b.failed
    {
      var t := r.ticker;
      assert t in multiset(b.included);
      DistinctCountsOnce(tickers, t);
      assert multiset(tickers)[t] <= 1;
      assert multiset(b.failed)[t] == 0;
    }
  }

  lemma {:induction false} DistinctCountsOnce(s: seq<string>, x: string)
    requires DistinctTickers(s)
    ensures multiset(s)[x] <= 1
  {
    if s != [] {
      DistinctNotInTail(s);
      DistinctCountsOnce(s[1..], x);
      assert s == [s[0]] + s[1..];
      assert multiset(s) == multiset{s[0]} + multiset(s[1..]);
      if x == s[0] {
        assert multiset(s[1..])[x] == 0;
      }
    }
  }

  /** The rows each ticker contributes when synced on its own against `files`,
      concatenated in the order given; failing tickers contribute nothing. */
  function Independent(files: map<string, seq<Bar>>, tickers: seq<string>, today: int, yesterday: int, remote: Remote): seq<Row>
    decreases |tickers|
  {
    if tickers == [] then []
    else
      var s := Sync(files, tickers[|tickers| - 1], today, yesterday, remote);
      Independent(files, tickers[..|tickers| - 1], today, yesterday, remote)
        + (if s.result.Ok? then s.result.value else [])
  }

  /** `after` holds the same file for `t` as `before`, or neither has one. */
  predicate KeepsFile(after: map<string, seq<Bar>>, before: map<string, seq<Bar>>, t: string)
  {
    (t in after <==> t in before) && (t in before ==> after[t] == before[t])
  }

  lemma DistinctPrefix(tickers: seq<string>)
    requires DistinctTickers(tickers) && tickers != []
    ensures DistinctTickers(tickers[..|tickers| - 1])
    ensures tickers[|tickers| - 1] !in tickers[..|tickers| - 1]
  {
  }

  /** Tickers do not interfere: for distinct tickers the batch output is what
      each sync gives on its own against the initial files, so one ticker's
      failure removes only that ticker's rows; and a ticker outside the batch
      keeps its file. */
  lemma {:induction false} TickersAreIndependent(files: map<string, seq<Bar>>, tickers: seq<string>, today: int, yesterday: int, remote: Remote)
    requires DistinctTickers(tickers)
    ensures RunBatch(files, tickers, today, yesterday, remote).rows == Independent(files, tickers, today, yesterday, remote)
    ensures forall t :: t !in tickers ==> KeepsFile(RunBatch(files, tickers, today, yesterday, remote).files, files, t)
    decreases |tickers|
  {
    if tickers != [] {
      var prefix, t := tickers[..|tickers| - 1], tickers[|tickers| - 1];
      DistinctPrefix(tickers);
      TickersAreIndependent(files, prefix, today, yesterday, remote);
      var b := RunBatch(files, prefix, today, yesterday, remote);
      assert KeepsFile(b.files, files, t);
      SyncIsLocal(b.files, files, t, today, yesterday, remote);
      var r := Dispatch(b, t, today, yesterday, remote);
      assert RunBatch(files, tickers, today, yesterday, remote) == r;
      forall u | u !in tickers
        ensures KeepsFile(r.files, files, u)
      {
        assert u !in prefix && u != t;
        assert KeepsFile(b.files, files, u);
        OtherTickersUntouched(b.files, t, today, yesterday, remote, u);
      }
    }
  }

  /** Whether some ticker of the batch took the full-history path and its
      download raised. Its sync then returns the bare `pd.DataFrame()` stamped
      with a Ticker column: a frame with no rows and an unnamed index, which
      `pd.concat` keeps, so the combined index loses its name "Date". */
  predicate BareFrame(files: map<string, seq<Bar>>, tickers: seq<string>, today: int, yesterday: int, remote: Remote)
    decreases |tickers|
  {
    tickers != [] &&
    var prefix, t := tickers[..|tickers| - 1], tickers[|tickers| - 1];
    (BareFrame(files, prefix, today, yesterday, remote)
     || (t !in RunBatch(files, prefix, today, yesterday, remote).files && remote(t, Request(None, today)).FetchFailed?))
  }

  /** The as-written output at lines 62-64. `reset_index` names the new column
      after the index, and selecting Date, Ticker and Adj Close raises unless
      that index is named Date: it is not when no sync returned (`df_return`
      is still the frame it started as), and it is not when a bare frame of a
      failed full download was concatenated. */
  function ProjectAsWritten(files: map<string, seq<Bar>>, tickers: seq<string>, today: int, yesterday: int, remote: Remote): Result<seq<OutRow>>
  {
    var b := RunBatch(files, tickers, today, yesterday, remote);
    if b.included == [] || BareFrame(files, tickers, today, yesterday, remote) then Err(MissingColumns)
    else Ok(Project(b.rows))
  }

  /** The discrepancy: an empty ticker list, which the driver intends to answer
      with an empty table, raises in the as-written projection. */
  lemma EmptyBatchRaisesAsWritten(files: map<string, seq<Bar>>, today: int, yesterday: int, remote: Remote)
    ensures ProjectAsWritten(files, [], today, yesterday, remote) == Err(MissingColumns)
  {
  }

  /** The discrepancy, with rows to lose: "A" is new and its full download
      raises, "B" is up to date. The intended table holds B's row; as written,
      the whole batch raises, so A's failure is not isolated from B. */
  lemma FailedDownloadSpoilsBatchAsWritten(p: Prices)
    ensures var files := map["B" := [Bar(10, p)]];
            var down: Remote := (t, q) => FetchFailed;
            && Project(RunBatch(files, ["A", "B"], 11, 10, down).rows) == [OutRow(10, "B", p.adjClose)]
            && ProjectAsWritten(files, ["A", "B"], 11, 10, down) == Err(MissingColumns)
  {
    var files := map["B" := [Bar(10, p)]];
    var down: Remote := (t, q) => FetchFailed;
    var b1 := RunBatch(files, ["A"], 11, 10, down);
    assert ["A", "B"][..1] == ["A"] && ["A"][..0] == [];
    assert b1 == Batch(files, [], ["A"], []);
    assert BareFrame(files, ["A"], 11, 10, down);
    assert Max(BarDates([Bar(10, p)])) == 10;
    assert Update([Bar(10, p)], "B", 11, 10, down) == Step(None, None, Ok([Bar(10, p)]));
    var rows := Stamp([Bar(10, p)], "B");
    assert rows == [Row(10, "B", p)] by {
      assert |rows| == 1 && rows[0] == Row(10, "B", p);
    }
    assert Sync(b1.files, "B", 11, 10, down).result == Ok([Row(10, "B", p)]);
  }

  /** With the intended projection, a batch in which every sync raised still
      returns a table: the empty one, and every ticker appears in the log. */
  lemma {:induction false} AllFailedGivesEmptyTable(files: map<string, seq<Bar>>, tickers: seq<string>, today: int, yesterday: int, remote: Remote)
    requires forall t :: t in tickers ==> t in files && files[t] == []
    ensures var b := RunBatch(files, tickers, today, yesterday, remote);
            b.rows == [] && Project(b.rows) == [] && b.failed == tickers && b.files == files
    decreases |tickers|
  {
    if tickers != [] {
      var prefix, t := tickers[..|tickers| - 1], tickers[|tickers| - 1];
      assert tickers == prefix + [t];
      forall u | u in prefix
        ensures u in files && files[u] == []
      {
        assert u in tickers;
      }
      AllFailedGivesEmptyTable(files, prefix, today, yesterday, remote);
      var b := RunBatch(files, prefix, today, yesterday, remote);
      RunBatchLast(files, tickers, today, yesterday, remote);
      assert t in tickers;
      DispatchOfEmptyFile(b, t, today, yesterday, remote);
    }
  }

  /** A ticker whose file has no rows is logged and changes nothing else. */
  lemma DispatchOfEmptyFile(b: Batch, t: string, today: int, yesterday: int, remote: Remote)
    requires t in b.files && b.files[t] == []
    ensures Dispatch(b, t, today, yesterday, remote) == Batch(b.files, b.rows, b.included, b.failed + [t])
  {
    var s := Sync(b.files, t, today, yesterday, remote);
    assert s.result.Err? && s.write.None?;
  }

  /** `DataTerminal` of the earlier layout. */
  class DataTerminal {
    const today: int
    const yesterday: int
    const source: YahooFinanceSource

    /** The run's dates are fixed once and shared with the source object. */
    ghost predicate Valid()
    {
      source.today == today && source.yesterday == yesterday
    }

    /** `__init__`: TODAY is the calendar day of the local wall clock `clock`
        (seconds since the epoch of local time, so that `datetime.today()`'s
        date is its day), YESTERDAY the day before; `files` is the data
        directory as found. */
    constructor (clock: int, files: map<string, seq<Bar>>)
      ensures today * SecondsPerDay <= clock < (today + 1) * SecondsPerDay
      ensures yesterday == today - 1
      ensures Valid() && fresh(source) && source.files == files
    {
      var day := DayOf(clock);
      today := day;
      yesterday := day - 1;
      source := new YahooFinanceSource(files, day, day - 1);
    }

    /** `fetch_yfinance`: the projected table, and the tickers whose error was logged. */
    method FetchYFinance(tickers: seq<string>, remote: Remote) returns (table: seq<OutRow>, logged: seq<string>)
      requires Valid()
      modifies source
      ensures var b := RunBatch(old(source.files), Sort(tickers), today, yesterday, remote);
              table == Project(b.rows) && logged == b.failed && source.files == b.files
    {
      var order := Sort(tickers);
      var combined: seq<Row> := [];
      ghost var included: seq<string> := [];
      logged := [];
      var i := 0;
      while i < |order|
        invariant 0 <= i <= |order|
        invariant RunBatch(old(source.files), order[..i], today, yesterday, remote)
                  == Batch(source.files, combined, included, logged)
      {
        var ticker := order[i];
        var data, _ := source.FetchTickerData(ticker, remote);
        match data {
          case Ok(rows) =>
            combined := combined + rows;
            included := included + [ticker];
          case Err(_) =>
            logged := logged + [ticker];
        }
        RunBatchStep(old(source.files), order, i, today, yesterday, remote);
        i := i + 1;
      }
      assert order[..|order|] == order;
      table := Project(combined);
    }
  }
}
