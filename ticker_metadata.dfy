/** Derivation of the equity metadata in `tiingo_metadata`
    (zipline/data/bundles/tiingo_api.py): eligibility filter, duplicate-ticker
    handling, sid column, first_traded and auto_close_date. */
module TiingoMetadata {
  import opened Wrappers
  import opened Calendar
  import TiingoSids

  /** One row of the vendor's ticker list (`list_stock_tickers()`); None is a NaT or NaN cell. */
  datatype Listing = Listing(ticker: string, exchange: string, assetType: string,
                             priceCurrency: Option<string>, startDate: Option<Date>, endDate: Option<Date>)

  /** What the vendor's `get_ticker_metadata(ticker)` returns. */
  datatype TickerMeta = TickerMeta(ticker: string, exchangeCode: string, startDate: Option<Date>, endDate: Option<Date>)

  /** A row of the ticker frame once assetType and priceCurrency are dropped. */
  datatype TickerRow = TickerRow(ticker: string, exchange: string, startDate: Option<Date>, endDate: Option<Date>)

  /** A row of the returned metadata frame, whose index is the sid. */
  datatype Equity = Equity(sid: int, symbol: string, exchange: string, startDate: Date, endDate: Date,
                           firstTraded: Date, autoCloseDate: Date)

  /** NYSE or NASDAQ stocks, restricted to `tickers` unless it is 'ALL' (None). */
  predicate Eligible(l: Listing, tickers: Option<seq<string>>) {
    && (l.exchange == "NYSE" || l.exchange == "NASDAQ")
    && l.assetType == "Stock"
    && (tickers.None? || l.ticker in tickers.value)
  }

  /** A listing that survives `dropna()`: no missing cell. */
  predicate ListingComplete(l: Listing) {
    l.priceCurrency.Some? && l.startDate.Some? && l.endDate.Some?
  }

  predicate RowComplete(r: TickerRow) {
    r.startDate.Some? && r.endDate.Some?
  }

  /** The eligible, complete listings, in vendor order, without assetType and priceCurrency. */
  function Selected(ls: seq<Listing>, tickers: Option<seq<string>>): (rows: seq<TickerRow>)
    ensures |rows| <= |ls|
    ensures forall r :: r in rows ==> RowComplete(r)
  {
    if ls == [] then []
    else
      var l := ls[|ls| - 1];
      Selected(ls[..|ls| - 1], tickers)
        + (if Eligible(l, tickers) && ListingComplete(l)
           then [TickerRow(l.ticker, l.exchange, l.startDate, l.endDate)] else [])
  }

  /** A row is kept exactly when an eligible, complete listing projects to it:
      the filter neither loses such a listing nor invents a row. */
  lemma {:induction false} SelectedMembers(ls: seq<Listing>, tickers: Option<seq<string>>)
    ensures forall r :: r in Selected(ls, tickers) <==>
      exists l :: l in ls && Eligible(l, tickers) && ListingComplete(l) &&
                  r == TickerRow(l.ticker, l.exchange, l.startDate, l.endDate)
  {
    if ls != [] {
      var init, l := ls[..|ls| - 1], ls[|ls| - 1];
      SelectedMembers(init, tickers);
      assert ls == init + [l];
      forall r | r in Selected(ls, tickers)
        ensures exists m :: m in ls && Eligible(m, tickers) && ListingComplete(m) &&
                            r == TickerRow(m.ticker, m.exchange, m.startDate, m.endDate)
      {
        if r in Selected(init, tickers) {
          var m :| m in init && Eligible(m, tickers) && ListingComplete(m) &&
                   r == TickerRow(m.ticker, m.exchange, m.startDate, m.endDate);
          assert m in ls;
        } else {
          assert l in ls;
        }
      }
      forall m | m in ls && Eligible(m, tickers) && ListingComplete(m)
        ensures TickerRow(m.ticker, m.exchange, m.startDate, m.endDate) in Selected(ls, tickers)
      {
        if m != l {
          assert m in init;
        }
      }
    }
  }

  /** The number of rows of `rows` with ticker t. */
  function Count(rows: seq<TickerRow>, t: string): nat {
    if rows == [] then 0
    else Count(rows[..|rows| - 1], t) + (if rows[|rows| - 1].ticker == t then 1 else 0)
  }

  /** `duplicated(subset=['ticker'])`: every row whose ticker occurs earlier. */
  function Duplicates(rows: seq<TickerRow>): seq<TickerRow> {
    if rows == [] then []
    else
      var pre, last := rows[..|rows| - 1], rows[|rows| - 1];
      Duplicates(pre) + (if Count(pre, last.ticker) > 0 then [last] else [])
  }

  /** `drop_duplicates(subset=['ticker'])`: the first row of every ticker. */
  function FirstOccurrences(rows: seq<TickerRow>): seq<TickerRow> {
    if rows == [] then []
    else
      var pre, last := rows[..|rows| - 1], rows[|rows| - 1];
      FirstOccurrences(pre) + (if Count(pre, last.ticker) > 0 then [] else [last])
  }

  /** `rows[~rows['ticker'].isin(ts)]`. */
  function WithoutTickers(rows: seq<TickerRow>, ts: set<string>): seq<TickerRow> {
    if rows == [] then []
    else
      var pre, last := rows[..|rows| - 1], rows[|rows| - 1];
      WithoutTickers(pre, ts) + (if last.ticker in ts then [] else [last])
  }

  function TickersOf(rows: seq<TickerRow>): set<string> {
    set r | r in rows :: r.ticker
  }

  /** The primary rows: first occurrences whose ticker is not duplicated. */
  function Primary(rows: seq<TickerRow>): seq<TickerRow> {
    WithoutTickers(FirstOccurrences(rows), TickersOf(Duplicates(rows)))
  }

  /** The row assembled from the vendor's metadata for one ticker. */
  function Refetch(fetch: string -> TickerMeta, ticker: string): TickerRow {
    var m := fetch(ticker);
    TickerRow(m.ticker, m.exchangeCode, m.startDate, m.endDate)
  }

  /** `ex_duplicates`: one refetched row per duplicate row, in order. */
  function Refetched(fetch: string -> TickerMeta, dups: seq<TickerRow>): seq<TickerRow> {
    if dups == [] then []
    else Refetched(fetch, dups[..|dups| - 1]) + [Refetch(fetch, dups[|dups| - 1].ticker)]
  }

  /** The second `dropna()`: refetched rows may carry a NaT date. */
  function DropIncomplete(rows: seq<TickerRow>): (r: seq<TickerRow>)
    ensures forall x :: x in r <==> x in rows && RowComplete(x)
  {
    if rows == [] then []
    else
      var pre, last := rows[..|rows| - 1], rows[|rows| - 1];
      assert rows == pre + [last];
      DropIncomplete(pre) + (if RowComplete(last) then [last] else [])
  }

  /** The rows of the metadata frame, before the sid column is added. */
  function MetadataRows(ls: seq<Listing>, tickers: Option<seq<string>>, fetch: string -> TickerMeta): seq<TickerRow> {
    var rows := Selected(ls, tickers);
    DropIncomplete(Primary(rows) + Refetched(fetch, Duplicates(rows)))
  }

  lemma {:induction false} CountPositive(rows: seq<TickerRow>, t: string)
    ensures Count(rows, t) > 0 <==> exists r :: r in rows && r.ticker == t
  {
    if rows != [] {
      var pre := rows[..|rows| - 1];
      CountPositive(pre, t);
      assert rows == pre + [rows[|rows| - 1]];
    }
  }

  /** There is one duplicate row per extra occurrence of a ticker. */
  lemma {:induction false} DuplicatesPerTicker(rows: seq<TickerRow>, t: string)
    ensures Count(Duplicates(rows), t) == if Count(rows, t) == 0 then 0 else Count(rows, t) - 1
  {
    if rows != [] {
      var pre, last := rows[..|rows| - 1], rows[|rows| - 1];
      DuplicatesPerTicker(pre, t);
      var d := Duplicates(pre);
      assert Count(rows, t) == Count(pre, t) + (if last.ticker == t then 1 else 0);
      if Count(pre, last.ticker) > 0 {
        assert Duplicates(rows) == d + [last];
        assert (d + [last])[..|d + [last]| - 1] == d;
        assert Count(d + [last], t) == Count(d, t) + (if last.ticker == t then 1 else 0);
      } else {
        assert Duplicates(rows) == d;
      }
    }
  }

  lemma {:induction false} FirstOccurrencesInRows(rows: seq<TickerRow>)
    ensures forall r :: r in FirstOccurrences(rows) ==> r in rows
  {
    if rows != [] {
      var pre := rows[..|rows| - 1];
      FirstOccurrencesInRows(pre);
      assert rows == pre + [rows[|rows| - 1]];
    }
  }

  lemma {:induction false} SingletonIsFirst(rows: seq<TickerRow>, r: TickerRow)
    requires r in rows && Count(rows, r.ticker) == 1
    ensures r in FirstOccurrences(rows)
  {
    var pre, last := rows[..|rows| - 1], rows[|rows| - 1];
    assert rows == pre + [last];
    if r in pre {
      CountPositive(pre, r.ticker);
      SingletonIsFirst(pre, r);
    }
  }

  lemma {:induction false} WithoutTickersMembers(rows: seq<TickerRow>, ts: set<string>)
    ensures forall r :: r in WithoutTickers(rows, ts) <==> r in rows && r.ticker !in ts
  {
    if rows != [] {
      var pre := rows[..|rows| - 1];
      WithoutTickersMembers(pre, ts);
      assert rows == pre + [rows[|rows| - 1]];
    }
  }

  /** The primary rows are exactly the rows whose ticker occurs once: no
      ticker listed more than once survives on the primary path. */
  lemma PrimaryIsSingletons(rows: seq<TickerRow>)
    ensures forall r :: r in Primary(rows) <==> r in rows && Count(rows, r.ticker) == 1
  {
    var dups := Duplicates(rows);
    WithoutTickersMembers(FirstOccurrences(rows), TickersOf(dups));
    FirstOccurrencesInRows(rows);
    forall r ensures r in Primary(rows) <==> r in rows && Count(rows, r.ticker) == 1 {
      DuplicatesPerTicker(rows, r.ticker);
      CountPositive(dups, r.ticker);
      CountPositive(rows, r.ticker);
      assert r.ticker in TickersOf(dups) <==> Count(dups, r.ticker) > 0;
      if r in rows && Count(rows, r.ticker) == 1 {
        SingletonIsFirst(rows, r);
      }
    }
  }

  /** The symbol column of the frame, in row order. */
  function Symbols(rows: seq<TickerRow>): seq<string> {
    seq(|rows|, i requires 0 <= i < |rows| => rows[i].ticker)
  }

  lemma SymbolsCoverTickers(rows: seq<TickerRow>)
    ensures forall t :: t in Symbols(rows) <==> t in TickersOf(rows)
  {
    var syms := Symbols(rows);
    forall t ensures t in syms <==> t in TickersOf(rows) {
      if t in TickersOf(rows) {
        var r :| r in rows && r.ticker == t;
        var i :| 0 <= i < |rows| && rows[i] == r;
        assert syms[i] == t;
      }
    }
  }

  /** A metadata row: first_traded is start_date, auto_close_date is end_date plus one day. */
  function ToEquity(r: TickerRow, sid: int): Equity
    requires RowComplete(r)
  {
    Equity(sid, r.ticker, r.exchange, r.startDate.value, r.endDate.value, r.startDate.value, r.endDate.value + 1)
  }

  /** The keys of a sid map built over the symbol column are the frame's tickers. */
  lemma SidsCoverRows(rows: seq<TickerRow>, sids: map<string, int>)
    requires forall s :: s in sids <==> s in Symbols(rows)
    ensures sids.Keys == TickersOf(rows)
    ensures forall i :: 0 <= i < |rows| ==> rows[i].ticker in sids
  {
    SymbolsCoverTickers(rows);
    assert forall i :: 0 <= i < |rows| ==> rows[i] in rows && rows[i].ticker in TickersOf(rows);
  }

  /** The loop building `ex_duplicates`: the vendor's metadata for each
      duplicate row, in order. */
  method RefetchDuplicates(fetch: string -> TickerMeta, duplicates: seq<TickerRow>) returns (exDuplicates: seq<TickerRow>)
    ensures exDuplicates == Refetched(fetch, duplicates)
  {
    exDuplicates := [];
    for k := 0 to |duplicates|
      invariant exDuplicates == Refetched(fetch, duplicates[..k])
    {
      assert duplicates[..k + 1][..k] == duplicates[..k];
      exDuplicates := exDuplicates + [Refetch(fetch, duplicates[k].ticker)];
    }
    assert duplicates[..|duplicates|] == duplicates;
  }

  /** `tiingo_metadata(tickers, asset_finder)`, with the vendor's ticker list and
      per-ticker metadata passed in. Rows are the primary rows followed by one
      refetched row per extra occurrence of a duplicated ticker, without rows
      that miss a date; each carries the sid of its symbol,
      first_traded = start_date and auto_close_date = end_date plus one day. */
  method TiingoMetadata(listings: seq<Listing>, tickers: Option<seq<string>>,
                        finder: Option<TiingoSids.AssetFinder>, fetch: string -> TickerMeta)
    returns (equities: seq<Equity>, sids: map<string, int>)
    ensures var rows := MetadataRows(listings, tickers, fetch);
      && |equities| == |rows|
      && sids.Keys == TickersOf(rows)
      && TiingoSids.AssignedSids(finder, Symbols(rows), sids)
      && forall k :: 0 <= k < |rows| ==>
        && equities[k].symbol == rows[k].ticker
        && equities[k].exchange == rows[k].exchange
        && Some(equities[k].startDate) == rows[k].startDate
        && Some(equities[k].endDate) == rows[k].endDate
        && equities[k].sid == sids[rows[k].ticker]
        && equities[k].firstTraded == equities[k].startDate
        && equities[k].autoCloseDate == equities[k].endDate + 1
  {
    var rows := Selected(listings, tickers);
    var duplicates := Duplicates(rows);
    var primary := Primary(rows);
    var exDuplicates := RefetchDuplicates(fetch, duplicates);
    var all := DropIncomplete(primary + exDuplicates);
    assert all == MetadataRows(listings, tickers, fetch);
    sids := TiingoSids.AssetToSidMap(finder, Symbols(all));
    SidsCoverRows(all, sids);
    assert forall i :: 0 <= i < |all| ==> all[i] in all;
    equities := seq(|all|, i requires 0 <= i < |all| => ToEquity(all[i], sids[all[i].ticker]));
  }
}
