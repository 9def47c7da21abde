/** The batch driver of the newer layout (src/DataTerminal.py). It makes one
    source object per ticker in sorted order, concatenates what each returns,
    and finally truncates every Date to its UTC calendar day. Nothing catches
    a ticker's failure, so the first one aborts the batch; files already
    replaced stay replaced. */
module DataTerminal {
  import opened Common
  import opened Tickers
  import opened YahooFinance

  /** Lines 19-20: each instant becomes midnight (UTC) of its day; nothing else
      about a row, and not the order of rows, changes. */
  function NormalizeDates(rows: seq<Row>): (out: seq<Row>)
    ensures |out| == |rows|
    ensures forall i :: 0 <= i < |rows| ==>
              && out[i].ticker == rows[i].ticker && out[i].prices == rows[i].prices
              && out[i].date % SecondsPerDay == 0
              && out[i].date <= rows[i].date < out[i].date + SecondsPerDay
  {
    seq(|rows|, i requires 0 <= i < |rows| => Row(Midnight(rows[i].date), rows[i].ticker, rows[i].prices))
  }

  /** Normalising twice is normalising once. */
  lemma NormalizeIdempotent(rows: seq<Row>)
    ensures NormalizeDates(NormalizeDates(rows)) == NormalizeDates(rows)
  {
    var once := NormalizeDates(rows);
    forall i | 0 <= i < |rows|
      ensures NormalizeDates(once)[i] == once[i]
    {
      MidnightIdempotent(rows[i].date);
    }
  }

  /** Where the loop has got to: the files, and the rows concatenated so far or
      the failure that stopped it. */
  datatype Run = Run(files: map<string, CsvFile>, result: Result<seq<Row>>)

  /** The loop of lines 13-16 over `tickers`, each step a full download through
      `fetch_ticker`; once a step has failed, nothing further happens. */
  function Collect(files: map<string, CsvFile>, tickers: seq<string>, now: int, remote: Remote): Run
    decreases |tickers|
  {
    if tickers == [] then Run(files, Ok([]))
    else
      var r := Collect(files, tickers[..|tickers| - 1], now, remote);
      var t := tickers[|tickers| - 1];
      if r.result.Err? then r
      else
        var data := Download(t, now, remote);
        Run(AfterDownload(r.files, t, data), if data.Ok? then Ok(r.result.value + data.value) else Err(FetchError))
  }

  /** Whether `t`'s download raises. */
  predicate Fails(t: string, now: int, remote: Remote)
  {
    remote(t, Request(None, now)).FetchFailed?
  }

  /** The rows `t` contributes when its download succeeds. */
  function Contribution(t: string, now: int, remote: Remote): seq<Row>
  {
    match remote(t, Request(None, now))
    case FetchFailed => []
    case Rows(bars) => Stamp(bars, t)
  }

  /** Reference definition: the tickers' rows, one ticker after the other. */
  function Concatenation(tickers: seq<string>, now: int, remote: Remote): seq<Row>
  {
    if tickers == [] then [] else Contribution(tickers[0], now, remote) + Concatenation(tickers[1..], now, remote)
  }

  lemma {:induction false} ConcatenationAppend(a: seq<string>, t: string, now: int, remote: Remote)
    ensures Concatenation(a + [t], now, remote) == Concatenation(a, now, remote) + Contribution(t, now, remote)
    decreases |a|
  {
    if a == [] {
      assert a + [t] == [t] && [t][1..] == [];
    } else {
      var rest, at := a[1..], a + [t];
      assert at[0] == a[0] && at[1..] == rest + [t];
      ConcatenationAppend(rest, t, now, remote);
      var c, cs, d := Contribution(a[0], now, remote), Concatenation(rest, now, remote), Contribution(t, now, remote);
      assert Concatenation(at, now, remote) == c + (cs + d);
      assert Concatenation(a, now, remote) == c + cs;
      SeqAssoc(c, cs, d);
    }
  }

  lemma SeqAssoc(a: seq<Row>, b: seq<Row>, c: seq<Row>)
    ensures a + (b + c) == (a + b) + c
  {
  }

  /** Some ticker of `tickers` fails. */
  predicate AnyFails(tickers: seq<string>, now: int, remote: Remote)
  {
    exists k :: 0 <= k < |tickers| && Fails(tickers[k], now, remote)
  }

  lemma AnyFailsLast(tickers: seq<string>, now: int, remote: Remote)
    requires tickers != []
    ensures AnyFails(tickers, now, remote)
            <==> AnyFails(tickers[..|tickers| - 1], now, remote) || Fails(tickers[|tickers| - 1], now, remote)
  {
    var prefix := tickers[..|tickers| - 1];
    if AnyFails(prefix, now, remote) {
      var k :| 0 <= k < |prefix| && Fails(prefix[k], now, remote);
      assert tickers[k] == prefix[k];
    }
    if AnyFails(tickers, now, remote) {
      var k :| 0 <= k < |tickers| && Fails(tickers[k], now, remote);
      if k < |prefix| {
        assert prefix[k] == tickers[k];
      }
    }
  }

  /** The batch aborts exactly when some ticker's download raises, and otherwise
      returns the concatenation of the per-ticker results in the order given. */
  lemma {:induction false} CollectIsConcatenation(files: map<string, CsvFile>, tickers: seq<string>, now: int, remote: Remote)
    ensures Collect(files, tickers, now, remote).result.Err? <==> AnyFails(tickers, now, remote)
    ensures var r := Collect(files, tickers, now, remote);
            r.result.Ok? ==> r.result.value == Concatenation(tickers, now, remote)
    decreases |tickers|
  {
    if tickers != [] {
      var prefix, t := tickers[..|tickers| - 1], tickers[|tickers| - 1];
      CollectIsConcatenation(files, prefix, now, remote);
      AnyFailsLast(tickers, now, remote);
      assert tickers == prefix + [t];
      ConcatenationAppend(prefix, t, now, remote);
    }
  }

  /** Total of the per-ticker row counts. */
  function TotalRows(tickers: seq<string>, now: int, remote: Remote): nat
  {
    if tickers == [] then 0 else |Contribution(tickers[0], now, remote)| + TotalRows(tickers[1..], now, remote)
  }

  lemma {:induction false} ConcatenationLength(tickers: seq<string>, now: int, remote: Remote)
    ensures |Concatenation(tickers, now, remote)| == TotalRows(tickers, now, remote)
  {
    if tickers != [] {
      ConcatenationLength(tickers[1..], now, remote);
    }
  }

  /** The output has as many rows as the tickers contributed together. */
  lemma RowCountIsSum(files: map<string, CsvFile>, tickers: seq<string>, now: int, remote: Remote)
    requires Collect(files, tickers, now, remote).result.Ok?
    ensures |Collect(files, tickers, now, remote).result.value| == TotalRows(tickers, now, remote)
  {
    CollectIsConcatenation(files, tickers, now, remote);
    ConcatenationLength(tickers, now, remote);
  }

  /** Every row carries the ticker it was downloaded for, one of the batch. */
  lemma {:induction false} RowsAreStamped(tickers: seq<string>, now: int, remote: Remote)
    ensures forall r :: r in Concatenation(tickers, now, remote) ==> r.ticker.Some? && r.ticker.value in tickers
  {
    if tickers != [] {
      RowsAreStamped(tickers[1..], now, remote);
      forall r | r in Concatenation(tickers, now, remote)
        ensures r.ticker.Some? && r.ticker.value in tickers
      {
        if r in Contribution(tickers[0], now, remote) {
          var k :| 0 <= k < |Contribution(tickers[0], now, remote)| && Contribution(tickers[0], now, remote)[k] == r;
        } else {
          assert r in Concatenation(tickers[1..], now, remote);
          assert r.ticker.value in tickers[1..];
        }
      }
    }
  }

  /** A ticker outside the batch keeps its file, whether or not the batch
      aborted; a ticker of a completed batch holds exactly its download. */
  lemma {:induction false} CollectFiles(files: map<string, CsvFile>, tickers: seq<string>, now: int, remote: Remote)
    ensures var after := Collect(files, tickers, now, remote).files;
            forall t :: t !in tickers ==> (t in after <==> t in files) && (t in files ==> after[t] == files[t])
    ensures var r := Collect(files, tickers, now, remote);
            r.result.Ok? ==> forall t :: t in tickers ==> t in r.files && r.files[t] == Persist(Contribution(t, now, remote))
    decreases |tickers|
  {
    if tickers != [] {
      var prefix, t := tickers[..|tickers| - 1], tickers[|tickers| - 1];
      CollectFiles(files, prefix, now, remote);
      assert tickers == prefix + [t];
    }
  }

  /** Once a prefix of the batch has failed, the rest changes nothing. */
  lemma {:induction false} AbortIsFinal(files: map<string, CsvFile>, tickers: seq<string>, k: nat, now: int, remote: Remote)
    requires k <= |tickers|
    requires Collect(files, tickers[..k], now, remote).result.Err?
    ensures Collect(files, tickers, now, remote) == Collect(files, tickers[..k], now, remote)
    decreases |tickers|
  {
    if k < |tickers| {
      var prefix := tickers[..|tickers| - 1];
      assert prefix[..k] == tickers[..k];
      AbortIsFinal(files, prefix, k, now, remote);
    } else {
      assert tickers[..k] == tickers;
    }
  }

  /** The first failure at position `k`: the files are those the successful
      downloads before it left, and the batch raises. */
  lemma AbortKeepsEarlierWrites(files: map<string, CsvFile>, tickers: seq<string>, k: nat, now: int, remote: Remote)
    requires k < |tickers| && Fails(tickers[k], now, remote)
    requires forall i :: 0 <= i < k ==> !Fails(tickers[i], now, remote)
    ensures Collect(files, tickers[..k], now, remote).result.Ok?
    ensures Collect(files, tickers, now, remote) == Run(Collect(files, tickers[..k], now, remote).files, Err(FetchError))
  {
    var before := tickers[..k];
    CollectIsConcatenation(files, before, now, remote);
    assert tickers[..k + 1][..k] == before;
    AbortIsFinal(files, tickers, k + 1, now, remote);
  }

  /** The intended `fetch_data` raises exactly when some requested ticker's
      download raises; otherwise it returns every ticker's rows, the tickers
      taken in sorted order, with dates normalised. */
  lemma FetchDataIsSortedConcatenation(files: map<string, CsvFile>, tickers: seq<string>, now: int, remote: Remote)
    ensures var r := FetchDataSpec(files, tickers, now, remote);
            r.result.Err? <==> exists t :: t in tickers && Fails(t, now, remote)
    ensures var r := FetchDataSpec(files, tickers, now, remote);
            r.result.Ok? ==> r.result.value == NormalizeDates(Concatenation(Sort(tickers), now, remote))
  {
    var order := Sort(tickers);
    CollectIsConcatenation(files, order, now, remote);
    if exists t :: t in tickers && Fails(t, now, remote) {
      var t :| t in tickers && Fails(t, now, remote);
      assert t in multiset(order);
      var k :| 0 <= k < |order| && order[k] == t;
    }
    if AnyFails(order, now, remote) {
      var k :| 0 <= k < |order| && Fails(order[k], now, remote);
      assert order[k] in multiset(tickers);
    }
  }

  /** `fetch_data` as written: an empty ticker list leaves `df_return` an empty
      frame without a Date column, and line 19 raises on it. */
  function FetchDataAsWritten(files: map<string, CsvFile>, tickers: seq<string>, now: int, remote: Remote): Result<seq<Row>>
  {
    if tickers == [] then Err(MissingColumns)
    else
      var r := Collect(files, Sort(tickers), now, remote);
      if r.result.Ok? then Ok(NormalizeDates(r.result.value)) else r.result
  }

  /** `fetch_data` as intended: the normalised output of the sorted batch, an
      empty table for no tickers. */
  function FetchDataSpec(files: map<string, CsvFile>, tickers: seq<string>, now: int, remote: Remote): Run
  {
    var r := Collect(files, Sort(tickers), now, remote);
    Run(r.files, if r.result.Ok? then Ok(NormalizeDates(r.result.value)) else r.result)
  }

  /** The discrepancy: for no tickers the intended answer is an empty table, the
      code as written raises. */
  lemma EmptyTickersRaiseAsWritten(files: map<string, CsvFile>, now: int, remote: Remote)
    ensures FetchDataAsWritten(files, [], now, remote) == Err(MissingColumns)
    ensures FetchDataSpec(files, [], now, remote) == Run(files, Ok([]))
  {
  }

  /** For a non-empty ticker list both agree. */
  lemma AsWrittenAgreesOnTickers(files: map<string, CsvFile>, tickers: seq<string>, now: int, remote: Remote)
    requires tickers != []
    ensures FetchDataAsWritten(files, tickers, now, remote) == FetchDataSpec(files, tickers, now, remote).result
  {
  }

  /** `DataTerminal` of the newer layout over a data directory. */
  class DataTerminal {
    const store: Store

    constructor (store: Store)
      ensures this.store == store
    {
      this.store := store;
    }

    /** `fetch_data`; `now` is the clock reading every download uses. */
    method FetchData(tickers: seq<string>, now: int, remote: Remote) returns (table: Result<seq<Row>>)
      modifies store
      ensures var r := FetchDataSpec(old(store.files), tickers, now, remote);
              table == r.result && store.files == r.files
    {
      var order := Sort(tickers);
      var combined: seq<Row> := [];
      var i := 0;
      while i < |order|
        invariant 0 <= i <= |order|
        invariant Collect(old(store.files), order[..i], now, remote) == Run(store.files, Ok(combined))
      {
        var source := new YahooFinanceSource(order[i], store);
        var data, _ := source.FetchTicker(now, remote);
        assert order[..i + 1][..i] == order[..i];
        if data.Err? {
          // the exception leaves the loop and the method
          AbortIsFinal(old(store.files), order, i + 1, now, remote);
          return Err(FetchError);
        }
        combined := combined + data.value;
        i := i + 1;
      }
      assert order[..|order|] == order;
      table := Ok(NormalizeDates(combined));
    }
  }
}
