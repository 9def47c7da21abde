/** The synchroniser of the newer layout (src/YahooFinanceSource.py). A source
    object is made per ticker over the shared data directory. Its entry point
    always downloads the full history and replaces the ticker's file; the
    incremental update, which merges old and new rows and drops duplicate
    dates keeping the last, is present but not called. Dates are instants in
    seconds since the epoch, UTC. */
module YahooFinance {
  import opened Common

  /** A row of this layout: Date is an ordinary column. The Ticker cell is
      empty (NaN) for a row that nobody stamped. */
  datatype Row = Row(date: int, ticker: Option<string>, prices: Prices)

  /** A ticker's CSV file: whether it has a Date column, and its rows. */
  datatype CsvFile = CsvFile(hasDate: bool, rows: seq<Row>)

  /** The dates of this layout's rows. `Common.BarDates` is the same projection
      on provider bars; the two row types differ (a Ticker cell here), so each
      has its own. */
  function Dates(rows: seq<Row>): (ds: seq<int>)
    ensures |ds| == |rows|
    ensures forall i :: 0 <= i < |rows| ==> ds[i] == rows[i].date
  {
    seq(|rows|, i requires 0 <= i < |rows| => rows[i].date)
  }

  lemma DatesAppend(a: seq<Row>, b: seq<Row>)
    ensures Dates(a + b) == Dates(a) + Dates(b)
  {
    assert forall i :: 0 <= i < |a + b| ==> Dates(a + b)[i] == (Dates(a) + Dates(b))[i];
  }

  lemma DatesCons(rows: seq<Row>)
    requires rows != []
    ensures Dates(rows) == [rows[0].date] + Dates(rows[1..])
    ensures rows == [rows[0]] + rows[1..]
  {
    assert rows == [rows[0]] + rows[1..];
    DatesAppend([rows[0]], rows[1..]);
  }

  /** `reset_index` and `new_data['Ticker'] = ticker`: Date becomes a column and
      every row gets the ticker. Unlike `ArchiveYahooFinance.Stamp`, the result
      is this layout's row, whose Ticker cell can also be empty (`Unstamped`). */
  function Stamp(bars: seq<Bar>, ticker: string): (rows: seq<Row>)
    ensures |rows| == |bars|
    ensures forall i :: 0 <= i < |bars| ==>
              rows[i].date == bars[i].date && rows[i].ticker == Some(ticker) && rows[i].prices == bars[i].prices
  {
    seq(|bars|, i requires 0 <= i < |bars| => Row(bars[i].date, Some(ticker), bars[i].prices))
  }

  /** Provider rows concatenated without a Ticker column: the cell is NaN. */
  function Unstamped(bars: seq<Bar>): (rows: seq<Row>)
    ensures |rows| == |bars|
    ensures forall i :: 0 <= i < |bars| ==>
              rows[i].date == bars[i].date && rows[i].ticker == None && rows[i].prices == bars[i].prices
  {
    seq(|bars|, i requires 0 <= i < |bars| => Row(bars[i].date, None, bars[i].prices))
  }

  /** `pd.read_csv(file_path, index_col="Date", parse_dates=True)`: a file
      without a Date column cannot be indexed by it. */
  function ReadLocal(file: CsvFile): (r: Result<seq<Row>>)
  {
    if file.hasDate then Ok(file.rows) else Err(MissingDateColumn)
  }

  /** `to_csv(file_path, index=False)` of a frame whose Date is a column. */
  function Persist(rows: seq<Row>): CsvFile
  {
    CsvFile(true, rows)
  }

  /** `to_csv(file_path, index=False)` of a frame whose Date is the index, as at
      line 66: the index, and with it the Date column, is not written. */
  function PersistDroppingIndex(rows: seq<Row>): CsvFile
  {
    CsvFile(false, rows)
  }

  /** A file written with its Date column reads back as the rows written. */
  lemma PersistReadsBack(rows: seq<Row>)
    ensures ReadLocal(Persist(rows)) == Ok(rows)
  {
  }

  /** A file written as at line 66 cannot be read back by line 46. */
  lemma DroppedIndexIsUnreadable(rows: seq<Row>)
    ensures ReadLocal(PersistDroppingIndex(rows)).Err?
  {
  }

  // ---------------------------------------------------------------------------
  // `updated_data[~updated_data.index.duplicated(keep="last")]`

  /** The last row (in sequence order) whose date is `d`, if any. */
  function LastWithDate(rows: seq<Row>, d: int): Option<Row>
  {
    if rows == [] then None
    else if rows[|rows| - 1].date == d then Some(rows[|rows| - 1])
    else LastWithDate(rows[..|rows| - 1], d)
  }

  /** Keeps a row exactly when no later row has the same date. */
  function DedupKeepLast(rows: seq<Row>): seq<Row>
  {
    if rows == [] then []
    else if rows[0].date in Dates(rows[1..]) then DedupKeepLast(rows[1..])
    else [rows[0]] + DedupKeepLast(rows[1..])
  }

  /** `a` is `b` with some rows left out, the rest in their order. */
  predicate IsSubsequence(a: seq<Row>, b: seq<Row>)
    decreases |b|
  {
    a == [] || (b != [] && ((a[0] == b[0] && IsSubsequence(a[1..], b[1..])) || IsSubsequence(a, b[1..])))
  }

  lemma {:induction false} LastWithDateAppend(a: seq<Row>, b: seq<Row>, d: int)
    ensures LastWithDate(a + b, d) == if LastWithDate(b, d).Some? then LastWithDate(b, d) else LastWithDate(a, d)
    decreases |b|
  {
    if b == [] {
      assert a + b == a;
    } else {
      var n := |a + b|;
      assert (a + b)[n - 1] == b[|b| - 1];
      if b[|b| - 1].date != d {
        assert (a + b)[..n - 1] == a + b[..|b| - 1];
        LastWithDateAppend(a, b[..|b| - 1], d);
      }
    }
  }

  /** There is a last row with date `d` exactly when `d` occurs; it has that date and is one of the rows. */
  lemma {:induction false} LastWithDateFound(rows: seq<Row>, d: int)
    ensures LastWithDate(rows, d).Some? <==> d in Dates(rows)
    ensures LastWithDate(rows, d).Some? ==> LastWithDate(rows, d).value.date == d && LastWithDate(rows, d).value in rows
    decreases |rows|
  {
    if rows != [] {
      var n := |rows|;
      var init := rows[..n - 1];
      assert rows == init + [rows[n - 1]];
      DatesAppend(init, [rows[n - 1]]);
      if rows[n - 1].date != d {
        LastWithDateFound(init, d);
      }
    }
  }

  /** No date is lost or invented: the dates kept are the dates of the input. */
  lemma {:induction false} DedupKeepsDates(rows: seq<Row>)
    ensures forall d :: d in Dates(DedupKeepLast(rows)) <==> d in Dates(rows)
    decreases |rows|
  {
    if rows != [] {
      DedupKeepsDates(rows[1..]);
      DatesCons(rows);
      var tail := DedupKeepLast(rows[1..]);
      if rows[0].date !in Dates(rows[1..]) {
        DatesCons([rows[0]] + tail);
        assert ([rows[0]] + tail)[1..] == tail;
      }
    }
  }

  /** After the filter each date appears exactly once. */
  lemma {:induction false} DedupIsDistinct(rows: seq<Row>)
    ensures Distinct(Dates(DedupKeepLast(rows)))
    decreases |rows|
  {
    if rows != [] {
      DedupIsDistinct(rows[1..]);
      DedupKeepsDates(rows[1..]);
      var tail := DedupKeepLast(rows[1..]);
      if rows[0].date !in Dates(rows[1..]) {
        var r := [rows[0]] + tail;
        DatesCons(r);
        assert r[1..] == tail;
        DistinctCons(rows[0].date, Dates(tail));
      }
    }
  }

  /** The last row with date `d`: the tail's, if it has one, else possibly the head. */
  lemma LastWithDateUncons(rows: seq<Row>, d: int)
    requires rows != []
    ensures LastWithDate(rows, d)
            == if LastWithDate(rows[1..], d).Some? then LastWithDate(rows[1..], d)
               else if rows[0].date == d then Some(rows[0]) else None
  {
    assert rows == [rows[0]] + rows[1..];
    LastWithDateAppend([rows[0]], rows[1..], d);
    assert [rows[0]][..0] == [];
  }

  /** Every row of `r` is the last row of `rows` with its date. */
  predicate LastOccurrences(r: seq<Row>, rows: seq<Row>)
  {
    forall k :: 0 <= k < |r| ==> LastWithDate(rows, r[k].date) == Some(r[k])
  }

  /** A last occurrence in the tail stays one when a row is put in front. */
  lemma OccurrencesExtend(r: seq<Row>, rows: seq<Row>)
    requires rows != [] && LastOccurrences(r, rows[1..])
    ensures LastOccurrences(r, rows)
  {
    forall k | 0 <= k < |r|
      ensures LastWithDate(rows, r[k].date) == Some(r[k])
    {
      LastWithDateUncons(rows, r[k].date);
    }
  }

  /** A head whose date does not recur is the last occurrence of its date. */
  lemma OccurrencesCons(r: seq<Row>, rows: seq<Row>)
    requires rows != [] && LastOccurrences(r, rows[1..])
    requires rows[0].date !in Dates(rows[1..])
    ensures LastOccurrences([rows[0]] + r, rows)
  {
    OccurrencesExtend(r, rows);
    LastWithDateFound(rows[1..], rows[0].date);
    LastWithDateUncons(rows, rows[0].date);
    var c := [rows[0]] + r;
    forall k | 0 <= k < |c|
      ensures LastWithDate(rows, c[k].date) == Some(c[k])
    {
      if k > 0 {
        assert c[k] == r[k - 1];
      }
    }
  }

  /** The row kept for a date is the last occurrence of that date. */
  lemma {:induction false} DedupKeepsLastOccurrence(rows: seq<Row>)
    ensures LastOccurrences(DedupKeepLast(rows), rows)
    decreases |rows|
  {
    if rows != [] {
      DedupKeepsLastOccurrence(rows[1..]);
      var kept := DedupKeepLast(rows[1..]);
      if rows[0].date in Dates(rows[1..]) {
        OccurrencesExtend(kept, rows);
      } else {
        OccurrencesCons(kept, rows);
      }
    }
  }

  /** Kept rows keep their relative order; nothing is sorted. */
  lemma {:induction false} DedupIsSubsequence(rows: seq<Row>)
    ensures IsSubsequence(DedupKeepLast(rows), rows)
    decreases |rows|
  {
    if rows != [] {
      DedupIsSubsequence(rows[1..]);
      var tail := DedupKeepLast(rows[1..]);
      if rows[0].date !in Dates(rows[1..]) {
        assert ([rows[0]] + tail)[1..] == tail;
      }
    }
  }

  /** Row `i` is the last row with its date. */
  predicate LastAt(rows: seq<Row>, i: int)
  {
    0 <= i < |rows| && rows[i].date !in Dates(rows[i + 1..])
  }

  /** The kept rows by position: the `k`-th kept row is the row at `idx[k]`,
      the last one with its date, and the positions increase. Unlike
      `DedupIsSubsequence`, this fixes the order even when a row recurs
      verbatim. */
  lemma {:induction false} DedupPositions(rows: seq<Row>) returns (idx: seq<int>)
    ensures |idx| == |DedupKeepLast(rows)|
    ensures forall k :: 0 <= k < |idx| ==> LastAt(rows, idx[k]) && DedupKeepLast(rows)[k] == rows[idx[k]]
    ensures forall k, l :: 0 <= k < l < |idx| ==> idx[k] < idx[l]
    decreases |rows|
  {
    if rows == [] {
      idx := [];
    } else {
      var tailIdx := DedupPositions(rows[1..]);
      var tail := DedupKeepLast(rows[1..]);
      var shifted := ShiftPositions(rows, tail, tailIdx);
      if rows[0].date in Dates(rows[1..]) {
        assert DedupKeepLast(rows) == tail;
        idx := shifted;
      } else {
        assert DedupKeepLast(rows) == [rows[0]] + tail;
        idx := ConsPosition(rows, tail, shifted);
      }
    }
  }

  /** A head whose date does not recur is kept at position 0, before the rest. */
  lemma ConsPosition(rows: seq<Row>, tail: seq<Row>, shifted: seq<int>) returns (idx: seq<int>)
    requires rows != [] && rows[0].date !in Dates(rows[1..])
    requires |shifted| == |tail|
    requires forall k :: 0 <= k < |shifted| ==> 1 <= shifted[k] && LastAt(rows, shifted[k]) && tail[k] == rows[shifted[k]]
    requires forall k, l :: 0 <= k < l < |shifted| ==> shifted[k] < shifted[l]
    ensures idx == [0] + shifted
    ensures forall k :: 0 <= k < |idx| ==> LastAt(rows, idx[k]) && ([rows[0]] + tail)[k] == rows[idx[k]]
    ensures forall k, l :: 0 <= k < l < |idx| ==> idx[k] < idx[l]
  {
    var kept := [rows[0]] + tail;
    idx := [0] + shifted;
    assert LastAt(rows, 0) by {
      assert rows[0 + 1..] == rows[1..];
    }
    forall k | 1 <= k < |idx|
      ensures LastAt(rows, idx[k]) && kept[k] == rows[idx[k]]
    {
      assert idx[k] == shifted[k - 1] && kept[k] == tail[k - 1];
    }
    forall k, l | 0 <= k < l < |idx|
      ensures idx[k] < idx[l]
    {
      assert idx[l] == shifted[l - 1];
      if k > 0 {
        assert idx[k] == shifted[k - 1];
      }
    }
  }

  /** Positions of the kept rows of the tail, moved one place right, are
      positions in the whole series. */
  lemma ShiftPositions(rows: seq<Row>, tail: seq<Row>, tailIdx: seq<int>) returns (shifted: seq<int>)
    requires rows != []
    requires |tailIdx| == |tail|
    requires forall k :: 0 <= k < |tailIdx| ==> LastAt(rows[1..], tailIdx[k]) && tail[k] == rows[1..][tailIdx[k]]
    requires forall k, l :: 0 <= k < l < |tailIdx| ==> tailIdx[k] < tailIdx[l]
    ensures |shifted| == |tailIdx|
    ensures forall k :: 0 <= k < |shifted| ==> 1 <= shifted[k] && LastAt(rows, shifted[k]) && tail[k] == rows[shifted[k]]
    ensures forall k, l :: 0 <= k < l < |shifted| ==> shifted[k] < shifted[l]
  {
    shifted := seq(|tailIdx|, k requires 0 <= k < |tailIdx| => tailIdx[k] + 1);
    forall k | 0 <= k < |shifted|
      ensures 1 <= shifted[k] && LastAt(rows, shifted[k]) && tail[k] == rows[shifted[k]]
    {
      ShiftLastAt(rows, tailIdx[k]);
    }
  }

  /** Row `i` of the tail is row `i + 1` of the whole, and stays the last with its date. */
  lemma ShiftLastAt(rows: seq<Row>, i: int)
    requires rows != [] && LastAt(rows[1..], i)
    ensures LastAt(rows, i + 1) && rows[1..][i] == rows[i + 1]
  {
    var tail := rows[1..];
    assert rows[i + 1 + 1..] == tail[i + 1..];
  }


  lemma {:induction false} SubsequenceMembers(a: seq<Row>, b: seq<Row>)
    requires IsSubsequence(a, b)
    ensures forall x :: x in a ==> x in b
    decreases |b|
  {
    if a != [] {
      if a[0] == b[0] && IsSubsequence(a[1..], b[1..]) {
        SubsequenceMembers(a[1..], b[1..]);
        assert a == [a[0]] + a[1..] && b == [b[0]] + b[1..];
      } else {
        SubsequenceMembers(a, b[1..]);
        assert b == [b[0]] + b[1..];
      }
    }
  }

  /** The filter is idempotent: it leaves a series with unique dates unchanged. */
  lemma {:induction false} DedupIdempotent(rows: seq<Row>)
    requires Distinct(Dates(rows))
    ensures DedupKeepLast(rows) == rows
    decreases |rows|
  {
    if rows != [] {
      DatesCons(rows);
      DistinctCons(rows[0].date, Dates(rows[1..]));
      DedupIdempotent(rows[1..]);
    }
  }

  /** The last row always survives the filter. */
  lemma LastRowKept(rows: seq<Row>)
    requires rows != []
    ensures rows[|rows| - 1] in DedupKeepLast(rows)
  {
    var last := rows[|rows| - 1];
    var r := DedupKeepLast(rows);
    assert Dates(rows)[|rows| - 1] == last.date;
    DedupKeepsDates(rows);
    assert last.date in Dates(r);
    var k :| 0 <= k < |r| && Dates(r)[k] == last.date;
    DedupKeepsLastOccurrence(rows);
    assert LastWithDate(rows, r[k].date) == Some(r[k]);
    assert LastWithDate(rows, last.date) == Some(last);
  }

  // ---------------------------------------------------------------------------
  // The merge of `_update_existing_data` (lines 62-64)

  /** Old rows, then the downloaded rows stamped with the ticker, duplicate dates
      dropped keeping the last. */
  function Merge(local: seq<Row>, bars: seq<Bar>, ticker: string): seq<Row>
  {
    DedupKeepLast(local + Stamp(bars, ticker))
  }

  /** Lines 62-64 as written: the downloaded rows are concatenated without a
      Ticker column. */
  function MergeAsWritten(local: seq<Row>, bars: seq<Bar>): seq<Row>
  {
    DedupKeepLast(local + Unstamped(bars))
  }

  lemma StampDates(bars: seq<Bar>, ticker: string)
    ensures Dates(Stamp(bars, ticker)) == BarDates(bars)
  {
  }

  /** After the merge each date appears once, and the dates are those of the
      old series together with those downloaded. */
  lemma MergeDates(local: seq<Row>, bars: seq<Bar>, ticker: string)
    ensures Distinct(Dates(Merge(local, bars, ticker)))
    ensures forall d :: d in Dates(Merge(local, bars, ticker)) <==> d in Dates(local) || d in BarDates(bars)
  {
    var all := local + Stamp(bars, ticker);
    DedupIsDistinct(all);
    DedupKeepsDates(all);
    DatesAppend(local, Stamp(bars, ticker));
    StampDates(bars, ticker);
  }

  /** On a date present in both, the downloaded row wins; a date only in the old
      series keeps its old row. */
  lemma MergeNewRowsWin(local: seq<Row>, bars: seq<Bar>, ticker: string)
    ensures var m := Merge(local, bars, ticker);
            forall k :: 0 <= k < |m| && m[k].date in BarDates(bars) ==> LastWithDate(Stamp(bars, ticker), m[k].date) == Some(m[k])
    ensures var m := Merge(local, bars, ticker);
            forall k :: 0 <= k < |m| && m[k].date !in BarDates(bars) ==> LastWithDate(local, m[k].date) == Some(m[k])
  {
    var downloaded := Stamp(bars, ticker);
    var m := Merge(local, bars, ticker);
    DedupKeepsLastOccurrence(local + downloaded);
    StampDates(bars, ticker);
    forall k | 0 <= k < |m|
      ensures m[k].date in BarDates(bars) ==> LastWithDate(downloaded, m[k].date) == Some(m[k])
      ensures m[k].date !in BarDates(bars) ==> LastWithDate(local, m[k].date) == Some(m[k])
    {
      assert LastWithDate(local + downloaded, m[k].date) == Some(m[k]);
      LastWithDateAppend(local, downloaded, m[k].date);
      LastWithDateFound(downloaded, m[k].date);
      assert m[k].date in BarDates(bars) <==> m[k].date in Dates(downloaded);
    }
  }

  /** When the old rows carry the ticker, so does every merged row. */
  lemma MergeIsStamped(local: seq<Row>, bars: seq<Bar>, ticker: string)
    requires forall r :: r in local ==> r.ticker == Some(ticker)
    ensures forall r :: r in Merge(local, bars, ticker) ==> r.ticker == Some(ticker)
  {
    var all := local + Stamp(bars, ticker);
    DedupIsSubsequence(all);
    SubsequenceMembers(DedupKeepLast(all), all);
  }

  /** As written, some merged row has no ticker: the last downloaded row is
      always kept, with an empty Ticker cell. */
  lemma MergeAsWrittenLosesTicker(local: seq<Row>, bars: seq<Bar>)
    requires bars != []
    ensures var last := bars[|bars| - 1];
            Row(last.date, None, last.prices) in MergeAsWritten(local, bars)
  {
    var all := local + Unstamped(bars);
    LastRowKept(all);
    assert all[|all| - 1] == Unstamped(bars)[|bars| - 1];
  }

  // ---------------------------------------------------------------------------
  // The two synchronisation paths

  /** What `_update_existing_data` did: the request made (if any), the new file
      (if written), and the series returned or the error raised. */
  datatype UpdateStep = UpdateStep(request: Option<Request>, write: Option<CsvFile>, result: Result<seq<Row>>)

  /** `_update_existing_data`, with the downloaded rows stamped and the file
      written with its Date column. */
  function Update(file: CsvFile, ticker: string, now: int, remote: Remote): (u: UpdateStep)
    // the provider is asked exactly when the file reads back with at least one row
    ensures u.request.Some? <==> file.hasDate && file.rows != []
    // the window: from the day after the latest local instant to today's midnight
    ensures u.request.Some? ==> u.request.value == Request(Some(Max(Dates(file.rows)) + SecondsPerDay), Midnight(now))
    // the file is rewritten exactly when the provider answers with some rows
    ensures u.write.Some? <==> u.request.Some? && remote(ticker, u.request.value).Rows? && remote(ticker, u.request.value).bars != []
    // no new rows: the old series comes back, nothing is written
    ensures u.request.Some? && remote(ticker, u.request.value) == Rows([]) ==> u.result == Ok(file.rows)
    // nothing catches a raising call here
    ensures u.request.Some? && remote(ticker, u.request.value).FetchFailed? ==> u.result == Err(FetchError)
    // what is written is the merge, and it reads back as the series returned
    ensures u.write.Some? ==> u.result == Ok(Merge(file.rows, remote(ticker, u.request.value).bars, ticker))
    ensures u.write.Some? ==> ReadLocal(u.write.value) == u.result
    // no request: reading the file raised, for a missing Date column or for want of a latest date
    ensures u.request.None? ==> u.result == Err(if file.hasDate then NoLatestDate else MissingDateColumn)
  {
    match ReadLocal(file)
    case Err(e) => UpdateStep(None, None, Err(e))
    case Ok(local) =>
      if local == [] then
        // an empty index has no latest date to start the window from
        UpdateStep(None, None, Err(NoLatestDate))
      else
        var request := Request(Some(Max(Dates(local)) + SecondsPerDay), Midnight(now));
        match remote(ticker, request)
        case FetchFailed => UpdateStep(Some(request), None, Err(FetchError))
        case Rows(bars) =>
          if bars == [] then UpdateStep(Some(request), None, Ok(local))
          else
            var merged := Merge(local, bars, ticker);
            UpdateStep(Some(request), Some(Persist(merged)), Ok(merged))
  }

  /** `_download_new_data`: the rows of a full-history request, stamped. */
  function Download(ticker: string, now: int, remote: Remote): (r: Result<seq<Row>>)
    ensures r.Err? <==> remote(ticker, Request(None, now)).FetchFailed?
    ensures r.Ok? ==> Dates(r.value) == BarDates(remote(ticker, Request(None, now)).bars)
    ensures r.Ok? ==> forall row :: row in r.value ==> row.ticker == Some(ticker)
    ensures r.Ok? ==> forall i :: 0 <= i < |r.value| ==> r.value[i].prices == remote(ticker, Request(None, now)).bars[i].prices
  {
    match remote(ticker, Request(None, now))
    case FetchFailed => Err(FetchError)
    case Rows(bars) => Ok(Stamp(bars, ticker))
  }

  /** The files after a download: a successful one replaces the ticker's file
      outright, whatever it held. */
  function AfterDownload(files: map<string, CsvFile>, ticker: string, data: Result<seq<Row>>): map<string, CsvFile>
  {
    if data.Ok? then files[ticker := Persist(data.value)] else files
  }

  /** Always redownloading can lose history: a provider that now answers no rows
      empties a file that held some. */
  lemma RedownloadCanShrinkCoverage(files: map<string, CsvFile>, ticker: string, now: int, remote: Remote)
    requires ticker in files && files[ticker].rows != []
    requires remote(ticker, Request(None, now)) == Rows([])
    ensures var after := AfterDownload(files, ticker, Download(ticker, now, remote));
            after[ticker].rows == [] && ReadLocal(after[ticker]) == Ok([])
  {
  }

  /** The data directory shared by all source objects of a run. */
  class Store {
    var files: map<string, CsvFile>

    constructor (files: map<string, CsvFile>)
      ensures this.files == files
    {
      this.files := files;
    }
  }

  /** `YahooFinanceSource` of the newer layout: one ticker over the shared store.
      Creating the directory is not modelled. */
  class YahooFinanceSource {
    const ticker: string
    const store: Store

    constructor (ticker: string, store: Store)
      ensures this.ticker == ticker && this.store == store
    {
      this.ticker := ticker;
      this.store := store;
    }

    /** `fetch_ticker`: the full download is taken whether or not a file exists. */
    method FetchTicker(now: int, remote: Remote) returns (data: Result<seq<Row>>, sent: Request)
      modifies store
      ensures sent == Request(None, now)
      ensures data == Download(ticker, now, remote)
      ensures store.files == AfterDownload(old(store.files), ticker, data)
    {
      if ticker in store.files {
        // the incremental update is disabled here
        data, sent := DownloadNewData(now, remote);
      } else {
        data, sent := DownloadNewData(now, remote);
      }
    }

    /** `_download_new_data`: `now` is the clock reading taken for the request. */
    method DownloadNewData(now: int, remote: Remote) returns (data: Result<seq<Row>>, sent: Request)
      modifies store
      ensures sent == Request(None, now)
      ensures data == Download(ticker, now, remote)
      ensures store.files == AfterDownload(old(store.files), ticker, data)
    {
      sent := Request(None, now);
      var newData := remote(ticker, sent);
      if newData.FetchFailed? {
        // nothing catches the provider's exception
        return Err(FetchError), sent;
      }
      var rows := Stamp(newData.bars, ticker);
      store.files := store.files[ticker := Persist(rows)];
      data := Ok(rows);
    }

    /** `_update_existing_data`, as intended: new rows stamped, Date kept on write. */
    method UpdateExistingData(now: int, remote: Remote) returns (data: Result<seq<Row>>, sent: Option<Request>)
      requires ticker in store.files
      modifies store
      ensures var u := Update(old(store.files)[ticker], ticker, now, remote);
              data == u.result && sent == u.request
              && store.files == if u.write.Some? then old(store.files)[ticker := u.write.value] else old(store.files)
    {
      var oldData := ReadLocal(store.files[ticker]);
      if oldData.Err? {
        return Err(oldData.error), None;
      }
      var local := oldData.value;
      if local == [] {
        return Err(NoLatestDate), None;
      }
      var latestLocalDate := Max(Dates(local));
      var request := Request(Some(latestLocalDate + SecondsPerDay), Midnight(now));
      sent := Some(request);
      var newData := remote(ticker, request);
      if newData.FetchFailed? {
        return Err(FetchError), sent;
      }
      if newData.bars == [] {
        return Ok(local), sent;
      }
      var updated := Merge(local, newData.bars, ticker);
      store.files := store.files[ticker := Persist(updated)];
      data := Ok(updated);
    }
  }
}
