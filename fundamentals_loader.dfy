/** The point-in-time fundamentals loader: per column, the `fundamentals`
    table's (date, id, value) rows become a date-by-id matrix forward-filled
    along dates, cached by column name; queries read it as of shifted
    session dates and project it onto the requested sids. */
module PsqlFundamentals {
  import opened Wrappers
  import opened Calendar

  /** One row of the `fundamentals` table for a given column name. */
  datatype Triple = Triple(date: Date, id: int, value: Option<real>)

  /** The `ORDER BY date, id` order, strict because (name, date, id) is unique. */
  predicate Precedes(a: Triple, b: Triple) {
    a.date < b.date || (a.date == b.date && a.id < b.id)
  }

  predicate Ordered(ts: seq<Triple>) {
    forall i, j :: 0 <= i < j < |ts| ==> Precedes(ts[i], ts[j])
  }

  /** An unstacked frame: one row per distinct date, a row mapping each id to
      its value (an id absent from a row is NaN there). */
  datatype Matrix = Matrix(dates: seq<Date>, rows: seq<map<int, real>>)

  /** The value a row holds for an id, None for NaN. */
  function Cell(row: map<int, real>, id: int): Option<real> {
    if id in row then Some(row[id]) else None
  }

  /** The index of the unstacked frame: the distinct dates, in order. */
  function DistinctDates(ts: seq<Triple>): (r: seq<Date>)
    ensures forall d :: d in r <==> exists t :: t in ts && t.date == d
    ensures Ordered(ts) ==> StrictlyIncreasing(r)
  {
    if ts == [] then []
    else if |ts| > 1 && ts[1].date == ts[0].date then
      assert ts[1] in ts[1..];
      DistinctDates(ts[1..])
    else
      var rest := DistinctDates(ts[1..]);
      if Ordered(ts) then
        assert forall j :: 0 <= j < |rest| ==> ts[0].date < rest[j] by {
          forall j | 0 <= j < |rest| ensures ts[0].date < rest[j] {
            assert rest[j] in rest;
            var t :| t in ts[1..] && t.date == rest[j];
            var k :| 0 <= k < |ts[1..]| && ts[1..][k] == t;
            assert ts[k + 1] == t;
            assert Precedes(ts[0], ts[1]);
            if k > 0 {
              assert Precedes(ts[1], ts[k + 1]);
            }
          }
        }
        [ts[0].date] + rest
      else [ts[0].date] + rest
  }

  /** The cell (d, id) of the unstacked frame before filling: the row's value,
      None where the row is missing or holds NaN. */
  function RawAt(ts: seq<Triple>, d: Date, id: int): (r: Option<real>)
    ensures r.Some? ==> exists t :: t in ts && t.date == d && t.id == id && t.value == r
  {
    if ts == [] then None
    else
      var last := ts[|ts| - 1];
      if last.date == d && last.id == id then last.value
      else RawAt(ts[..|ts| - 1], d, id)
  }

  /** The latest known value for an id as of day d: the value of the last row
      for that id dated on or before d that is not NaN. */
  function Latest(ts: seq<Triple>, id: int, d: Date): (r: Option<real>)
    ensures r.Some? ==> exists t :: t in ts && t.id == id && t.date <= d && t.value == r
  {
    if ts == [] then None
    else
      var last := ts[|ts| - 1];
      if last.id == id && last.date <= d && last.value.Some? then last.value
      else Latest(ts[..|ts| - 1], id, d)
  }

  function Ids(ts: seq<Triple>): set<int> {
    set t | t in ts :: t.id
  }

  /** One row of the unstacked frame. */
  function RawRow(ts: seq<Triple>, d: Date): map<int, real> {
    map id | id in Ids(ts) && RawAt(ts, d, id).Some? :: RawAt(ts, d, id).value
  }

  /** Row k of `unstack().ffill()`: the raw row over the filled row before it. */
  function FfillRow(ts: seq<Triple>, dates: seq<Date>, k: nat): map<int, real>
    requires k < |dates|
  {
    (if k == 0 then map[] else FfillRow(ts, dates, k - 1)) + RawRow(ts, dates[k])
  }

  /** `_load_from_sql`: the column's rows unstacked and forward-filled. */
  function LoadFromSql(ts: seq<Triple>): (m: Matrix)
    ensures m.dates == DistinctDates(ts) && |m.rows| == |m.dates|
  {
    var dates := DistinctDates(ts);
    Matrix(dates, seq(|dates|, k requires 0 <= k < |dates| => FfillRow(ts, dates, k)))
  }

  /** The row `reindex(method='ffill')` uses for day q: the last date on or
      before q, None when every date is later. */
  function LastAtOrBefore(s: seq<Date>, q: Date): (r: Option<nat>)
    ensures r.Some? ==> r.value < |s| && s[r.value] <= q && forall j :: r.value < j < |s| ==> s[j] > q
    ensures r.None? ==> forall j :: 0 <= j < |s| ==> s[j] > q
  {
    if s == [] then None
    else if s[|s| - 1] <= q then Some(|s| - 1)
    else LastAtOrBefore(s[..|s| - 1], q)
  }

  /** The reindexed row for day q; an empty (all-NaN) row before the first date. */
  function RowAsOf(m: Matrix, q: Date): map<int, real>
    requires |m.rows| == |m.dates|
  {
    match LastAtOrBefore(m.dates, q)
    case None => map[]
    case Some(k) => m.rows[k]
  }

  /** `stack().reindex(product(dates, sids)).unstack()[sids]` of the reindexed frame. */
  function LoadColumnSpec(m: Matrix, dates: seq<Date>, sids: seq<int>): (r: seq<seq<Option<real>>>)
    requires |m.rows| == |m.dates|
    ensures |r| == |dates| && forall i :: 0 <= i < |r| ==> |r[i]| == |sids|
  {
    seq(|dates|, i requires 0 <= i < |dates| =>
      seq(|sids|, j requires 0 <= j < |sids| => Cell(RowAsOf(m, dates[i]), sids[j])))
  }

  /** A raw row holds exactly the non-NaN values of its date. */
  lemma CellRawRow(ts: seq<Triple>, d: Date, id: int)
    ensures Cell(RawRow(ts, d), id) == RawAt(ts, d, id)
  {
    if RawAt(ts, d, id).Some? {
      var t :| t in ts && t.date == d && t.id == id && t.value == RawAt(ts, d, id);
      assert id in Ids(ts);
    }
  }

  /** Rows dated after d do not change the latest value as of d. */
  lemma {:induction false} LatestStable(ts: seq<Triple>, id: int, lo: Date, hi: Date)
    requires lo <= hi
    requires forall t :: t in ts ==> !(lo < t.date <= hi)
    ensures Latest(ts, id, hi) == Latest(ts, id, lo)
  {
    if ts != [] {
      var init := ts[..|ts| - 1];
      assert forall t :: t in init ==> t in ts;
      assert ts[|ts| - 1] in ts;
      LatestStable(init, id, lo, hi);
    }
  }

  /** When every row is dated on or before lo < hi, nothing is dated hi and the
      latest values as of lo and hi agree. */
  lemma EarlyRows(ts: seq<Triple>, id: int, lo: Date, hi: Date)
    requires lo < hi
    requires forall t :: t in ts ==> t.date <= lo
    ensures RawAt(ts, hi, id).None?
    ensures Latest(ts, id, hi) == Latest(ts, id, lo)
  {
    LatestStable(ts, id, lo, hi);
  }

  /** The last row of an ordered table carries its greatest date. */
  lemma LastIsLatestDate(ts: seq<Triple>)
    requires Ordered(ts) && ts != []
    ensures forall t :: t in ts ==> t.date <= ts[|ts| - 1].date
  {
    forall t | t in ts ensures t.date <= ts[|ts| - 1].date {
      var k :| 0 <= k < |ts| && ts[k] == t;
      if k < |ts| - 1 {
        assert Precedes(ts[k], ts[|ts| - 1]);
      }
    }
  }

  /** With no row strictly between lo and hi, the latest value as of hi is the
      value dated hi if there is one, otherwise the latest as of lo. */
  lemma {:induction false} LatestAtNextDate(ts: seq<Triple>, id: int, lo: Date, hi: Date)
    requires Ordered(ts) && lo < hi
    requires forall t :: t in ts ==> !(lo < t.date < hi)
    ensures Latest(ts, id, hi) == if RawAt(ts, hi, id).Some? then RawAt(ts, hi, id) else Latest(ts, id, lo)
  {
    if ts != [] {
      var n := |ts|;
      var init := ts[..n - 1];
      var last := ts[n - 1];
      LastIsLatestDate(ts);
      if last.date <= lo {
        EarlyRows(ts, id, lo, hi);
      } else {
        assert forall t :: t in init ==> t in ts;
        assert Ordered(init);
        LatestAtNextDate(init, id, lo, hi);
        if last.date == hi && last.id == id {
          forall t | t in init ensures !(t.date == hi && t.id == id) {
            var k :| 0 <= k < n - 1 && init[k] == t;
            assert Precedes(ts[k], last);
          }
          assert RawAt(init, hi, id).None?;
        }
      }
    }
  }

  /** No row is dated before the first date or strictly between two
      consecutive dates of an index that holds every row's date. */
  lemma DatesCoverRows(ts: seq<Triple>, dates: seq<Date>, k: nat)
    requires StrictlyIncreasing(dates) && k < |dates|
    requires forall t :: t in ts ==> t.date in dates
    ensures forall t :: t in ts ==> dates[0] <= t.date && (0 < k ==> !(dates[k - 1] < t.date < dates[k]))
  {
    forall t | t in ts ensures dates[0] <= t.date && (0 < k ==> !(dates[k - 1] < t.date < dates[k])) {
      var m :| 0 <= m < |dates| && dates[m] == t.date;
      assert dates[0] <= dates[m];
      if 0 < k {
        if m <= k - 1 {
          assert dates[m] <= dates[k - 1];
        } else {
          assert dates[k] <= dates[m];
        }
      }
    }
  }

  /** Forward filling along an index that holds every row's date gives, in
      each cell, the latest known value as of the cell's date. */
  lemma {:induction false} FfillIsLatestOn(ts: seq<Triple>, dates: seq<Date>, k: nat, id: int)
    requires Ordered(ts) && StrictlyIncreasing(dates) && k < |dates|
    requires forall t :: t in ts ==> t.date in dates
    ensures Cell(FfillRow(ts, dates, k), id) == Latest(ts, id, dates[k])
  {
    CellRawRow(ts, dates[k], id);
    DatesCoverRows(ts, dates, k);
    if k == 0 {
      LatestAtNextDate(ts, id, dates[0] - 1, dates[0]);
      assert Latest(ts, id, dates[0] - 1).None?;
    } else {
      FfillIsLatestOn(ts, dates, k - 1, id);
      LatestAtNextDate(ts, id, dates[k - 1], dates[k]);
    }
  }

  /** Every filled cache cell is the latest known value as of its date. */
  lemma FfillIsLatest(ts: seq<Triple>, k: nat, id: int)
    requires Ordered(ts) && k < |DistinctDates(ts)|
    ensures Cell(FfillRow(ts, DistinctDates(ts), k), id) == Latest(ts, id, DistinctDates(ts)[k])
  {
    var dates := DistinctDates(ts);
    forall t | t in ts ensures t.date in dates { }
    FfillIsLatestOn(ts, dates, k, id);
  }

  /** The reindexed row for any day holds the latest known value as of that
      day, and nothing before the first cached date. */
  lemma AsOfIsLatest(ts: seq<Triple>, q: Date, id: int)
    requires Ordered(ts)
    ensures Cell(RowAsOf(LoadFromSql(ts), q), id) == Latest(ts, id, q)
  {
    var m := LoadFromSql(ts);
    var dates := m.dates;
    match LastAtOrBefore(dates, q)
    case None =>
      forall t | t in ts ensures t.date > q {
        assert t.date in dates;
        var j :| 0 <= j < |dates| && dates[j] == t.date;
      }
    case Some(k) =>
      forall t | t in ts ensures !(dates[k] < t.date <= q) {
        assert t.date in dates;
        var j :| 0 <= j < |dates| && dates[j] == t.date;
        if j <= k {
          assert dates[j] <= dates[k];
        }
      }
      LatestStable(ts, id, dates[k], q);
      FfillIsLatest(ts, k, id);
  }

  /** `_load_column`'s answer: cell (i, j) is the latest known value of sid j as
      of query date i; a sid with no rows, or a date before any row, is missing. */
  lemma LoadColumnIsLatest(ts: seq<Triple>, dates: seq<Date>, sids: seq<int>)
    requires Ordered(ts)
    ensures var r := LoadColumnSpec(LoadFromSql(ts), dates, sids);
      forall i, j :: 0 <= i < |dates| && 0 <= j < |sids| ==> r[i][j] == Latest(ts, sids[j], dates[i])
  {
    forall i, j | 0 <= i < |dates| && 0 <= j < |sids|
      ensures LoadColumnSpec(LoadFromSql(ts), dates, sids)[i][j] == Latest(ts, sids[j], dates[i])
    {
      AsOfIsLatest(ts, dates[i], sids[j]);
    }
  }

  /** A sid without a non-NaN row on or before a date is missing for that date. */
  lemma MissingWithoutEarlierValue(ts: seq<Triple>, dates: seq<Date>, sids: seq<int>, i: nat, j: nat)
    requires Ordered(ts) && i < |dates| && j < |sids|
    requires forall t :: t in ts && t.id == sids[j] && t.date <= dates[i] ==> t.value.None?
    ensures LoadColumnSpec(LoadFromSql(ts), dates, sids)[i][j].None?
  {
    AsOfIsLatest(ts, dates[i], sids[j]);
  }

  /** The rows dated on or before c: what the table held as of day c. */
  function Upto(ts: seq<Triple>, c: Date): (r: seq<Triple>)
    ensures forall t :: t in r <==> t in ts && t.date <= c
    ensures Ordered(ts) ==> Ordered(r)
  {
    if ts == [] then []
    else
      var init := ts[..|ts| - 1];
      var last := ts[|ts| - 1];
      assert ts == init + [last];
      var rest := Upto(init, c);
      if last.date <= c then
        if Ordered(ts) then
          assert Ordered(init);
          assert forall j :: 0 <= j < |rest| ==> Precedes(rest[j], last) by {
            forall j | 0 <= j < |rest| ensures Precedes(rest[j], last) {
              assert rest[j] in rest;
              var k :| 0 <= k < |init| && init[k] == rest[j];
              assert Precedes(ts[k], ts[|ts| - 1]);
            }
          }
          rest + [last]
        else rest + [last]
      else rest
  }

  /** The latest value over one more row: that row's value if it counts. */
  lemma LatestSnoc(init: seq<Triple>, last: Triple, id: int, d: Date)
    ensures Latest(init + [last], id, d) ==
      if last.id == id && last.date <= d && last.value.Some? then last.value else Latest(init, id, d)
  {
    assert (init + [last])[..|init|] == init;
  }

  /** The latest value as of d ignores every row dated after d. */
  lemma {:induction false} LatestUpto(ts: seq<Triple>, id: int, d: Date, c: Date)
    requires d <= c
    ensures Latest(Upto(ts, c), id, d) == Latest(ts, id, d)
  {
    if ts != [] {
      var init := ts[..|ts| - 1];
      var last := ts[|ts| - 1];
      LatestUpto(init, id, d, c);
      if last.date <= c {
        LatestSnoc(Upto(init, c), last, id, d);
      }
    }
  }

  /** No lookahead in the matrix: the row answered for query date q is the one
      a table holding only the rows dated up to any c >= q would give. */
  lemma RowIgnoresLaterRows(ts: seq<Triple>, dates: seq<Date>, sids: seq<int>, i: nat, c: Date)
    requires Ordered(ts) && i < |dates| && dates[i] <= c
    ensures LoadColumnSpec(LoadFromSql(ts), dates, sids)[i] == LoadColumnSpec(LoadFromSql(Upto(ts, c)), dates, sids)[i]
  {
    var early := Upto(ts, c);
    LoadColumnIsLatest(ts, dates, sids);
    LoadColumnIsLatest(early, dates, sids);
    forall j | 0 <= j < |sids| ensures Latest(ts, sids[j], dates[i]) == Latest(early, sids[j], dates[i]) {
      LatestUpto(ts, sids[j], dates[i], c);
    }
  }

  /** `shift_dates(sessions, start, end, shift=1)`: the sessions from the one
      before `start` up to the one before `end`; None where it raises (start or
      end not a session, or start the first session). */
  function ShiftDates(sessions: seq<Date>, start: Date, end: Date): (r: Option<seq<Date>>)
    ensures r.Some? ==> start in sessions && end in sessions && start != sessions[0]
    ensures start !in sessions || end !in sessions ==> r.None?
  {
    match IndexOf(sessions, start)
    case None => None
    case Some(s) =>
      if s < 1 then None
      else match IndexOf(sessions, end)
        case None => None
        case Some(e) => if e < s - 1 then Some([]) else Some(sessions[s - 1..e])
  }

  /** Shifting the sessions s to s + n - 1 gives the sessions s - 1 to s + n - 2. */
  lemma ShiftOfSessions(sessions: seq<Date>, s: nat, n: nat)
    requires StrictlyIncreasing(sessions) && 1 <= s && 0 < n && s + n <= |sessions|
    ensures ShiftDates(sessions, sessions[s], sessions[s + n - 1]) == Some(sessions[s - 1..s + n - 1])
  {
    IndexOfIncreasing(sessions, s);
    IndexOfIncreasing(sessions, s + n - 1);
  }

  /** For query dates that are consecutive sessions, not starting at the first
      session, the shifted dates are the same number of sessions, each the
      session just before its query date. */
  lemma ShiftedSessionPrecedes(sessions: seq<Date>, s: nat, n: nat)
    requires StrictlyIncreasing(sessions) && 1 <= s && 0 < n && s + n <= |sessions|
    ensures var dates := sessions[s..s + n];
      var sh := ShiftDates(sessions, dates[0], dates[n - 1]);
      && sh.Some? && |sh.value| == n
      && forall i :: 0 <= i < n ==> sh.value[i] == sessions[s + i - 1] && sh.value[i] < dates[i]
  {
    var dates := sessions[s..s + n];
    assert dates[0] == sessions[s] && dates[n - 1] == sessions[s + n - 1];
    ShiftOfSessions(sessions, s, n);
    var sh := sessions[s - 1..s + n - 1];
    forall i | 0 <= i < n ensures sh[i] == sessions[s + i - 1] && sh[i] < dates[i] {
      assert dates[i] == sessions[s + i];
    }
  }

  /** The value shown on session N never uses data dated N or later: the
      answer for consecutive query sessions equals the answer computed from
      only the rows dated before each session. */
  lemma NoLookahead(ts: seq<Triple>, sessions: seq<Date>, s: nat, n: nat, sids: seq<int>, i: nat)
    requires Ordered(ts) && StrictlyIncreasing(sessions) && 1 <= s && 0 < n && s + n <= |sessions| && i < n
    ensures var dates := sessions[s..s + n];
      var sh := ShiftDates(sessions, dates[0], dates[n - 1]);
      && sh.Some? && |sh.value| == n
      && LoadColumnSpec(LoadFromSql(ts), sh.value, sids)[i] ==
         LoadColumnSpec(LoadFromSql(Upto(ts, dates[i] - 1)), sh.value, sids)[i]
  {
    var dates := sessions[s..s + n];
    ShiftedSessionPrecedes(sessions, s, n);
    var sh := ShiftDates(sessions, dates[0], dates[n - 1]).value;
    assert sh[i] <= dates[i] - 1;
    RowIgnoresLaterRows(ts, sh, sids, i, dates[i] - 1);
  }

  /** A pipeline column: its name in the table and its missing value. */
  datatype Column = Column(name: string, missingValue: Option<real>)

  /** A change to apply to a window of an `AdjustedArray`; fundamentals have none. */
  datatype Adjustment = Adjustment(firstRow: nat, lastRow: nat, col: nat, value: real)

  datatype AdjustedArray = AdjustedArray(
    data: seq<seq<Option<real>>>, adjustments: map<nat, seq<Adjustment>>, missingValue: Option<real>)

  /** The requested columns, as a set. */
  ghost function ColumnSet(cols: seq<Column>): set<Column> {
    set c | c in cols
  }

  /** The names of the requested columns: the keys they cache under. */
  ghost function Names(cols: seq<Column>): set<string> {
    set c | c in cols :: c.name
  }

  lemma ColumnsStep(cols: seq<Column>, k: nat)
    requires k < |cols|
    ensures ColumnSet(cols[..k + 1]) == ColumnSet(cols[..k]) + {cols[k]}
    ensures Names(cols[..k + 1]) == Names(cols[..k]) + {cols[k].name}
  {
    assert cols[..k + 1] == cols[..k] + [cols[k]];
  }

  /** The array `load_adjusted_array` builds for a column: the column's
      matrix read as of `shifted` and projected onto `sids`, without adjustments. */
  function ArrayFor(src: string -> seq<Triple>, c: Column, shifted: seq<Date>, sids: seq<int>): AdjustedArray {
    AdjustedArray(LoadColumnSpec(LoadFromSql(src(c.name)), shifted, sids), map[], c.missingValue)
  }

  /** m holds exactly one array per column of cols, each the one built for it. */
  ghost predicate ArraysOf(m: map<Column, AdjustedArray>, cols: seq<Column>, src: string -> seq<Triple>,
                           shifted: seq<Date>, sids: seq<int>) {
    && m.Keys == ColumnSet(cols)
    && forall c :: c in m ==> m[c] == ArrayFor(src, c, shifted, sids)
  }

  /** The cache keeps every entry of `before` and has gained the names of cols. */
  ghost predicate Extends(cache: map<string, Matrix>, before: map<string, Matrix>, cols: seq<Column>) {
    && cache.Keys == before.Keys + Names(cols)
    && forall name :: name in before ==> name in cache && cache[name] == before[name]
  }

  lemma ArraysStep(m: map<Column, AdjustedArray>, cols: seq<Column>, k: nat, src: string -> seq<Triple>,
                   shifted: seq<Date>, sids: seq<int>, result: seq<seq<Option<real>>>)
    requires k < |cols| && ArraysOf(m, cols[..k], src, shifted, sids)
    requires result == LoadColumnSpec(LoadFromSql(src(cols[k].name)), shifted, sids)
    ensures ArraysOf(m[cols[k] := AdjustedArray(result, map[], cols[k].missingValue)], cols[..k + 1], src, shifted, sids)
  {
    ColumnsStep(cols, k);
  }

  lemma ExtendsStep(cache: map<string, Matrix>, cache': map<string, Matrix>, before: map<string, Matrix>,
                    cols: seq<Column>, k: nat, content: Matrix)
    requires k < |cols| && Extends(cache, before, cols[..k])
    requires cache' == cache[cols[k].name := content]
    requires cols[k].name in cache ==> cache' == cache
    ensures Extends(cache', before, cols[..k + 1])
  {
    ColumnsStep(cols, k);
  }

  /** The loader; `source` stands for the `fundamentals` table behind the
      connection, giving the rows of each column name in `ORDER BY date, id`. */
  class PSQLFundamentalsLoader {
    const source: string -> seq<Triple>
    var colCache: map<string, Matrix>

    /** Every cached entry is what `_load_from_sql` gives for its name. */
    ghost predicate Valid()
      reads this
    {
      forall name :: name in colCache ==> colCache[name] == LoadFromSql(source(name))
    }

    constructor (source: string -> seq<Triple>)
      ensures this.source == source && colCache == map[] && Valid()
    {
      this.source := source;
      colCache := map[];
    }

    /** `_load_column`: on a miss the entry is loaded and kept, on a hit it is
        reused; no entry is ever removed or changed. */
    method LoadColumn(column: Column, dates: seq<Date>, sids: seq<int>) returns (result: seq<seq<Option<real>>>)
      requires Valid()
      modifies this
      ensures Valid()
      ensures colCache == old(colCache)[column.name := LoadFromSql(source(column.name))]
      ensures column.name in old(colCache) ==> colCache == old(colCache)
      ensures result == LoadColumnSpec(LoadFromSql(source(column.name)), dates, sids)
    {
      var content: Matrix;
      if column.name in colCache {
        content := colCache[column.name];
      } else {
        content := LoadFromSql(source(column.name));
        colCache := colCache[column.name := content];
      }
      result := LoadColumnSpec(content, dates, sids);
    }

    /** The loop of `load_adjusted_array`: one adjustment-free array per
        column, each loaded through the cache, read as of `shifted`. */
    method LoadArrays(columns: seq<Column>, shifted: seq<Date>, sids: seq<int>)
      returns (m: map<Column, AdjustedArray>)
      requires Valid()
      modifies this
      ensures Valid()
      ensures ArraysOf(m, columns, source, shifted, sids)
      ensures Extends(colCache, old(colCache), columns)
    {
      m := map[];
      ghost var before := colCache;
      for k := 0 to |columns|
        invariant Valid()
        invariant ArraysOf(m, columns[..k], source, shifted, sids)
        invariant Extends(colCache, before, columns[..k])
      {
        var column := columns[k];
        ghost var cache := colCache;
        var result := LoadColumn(column, shifted, sids);
        ArraysStep(m, columns, k, source, shifted, sids, result);
        ExtendsStep(cache, colCache, before, columns, k, LoadFromSql(source(column.name)));
        m := m[column := AdjustedArray(result, map[], column.missingValue)];
      }
      assert columns[..|columns|] == columns;
    }

    /** `load_adjusted_array`: one adjustment-free array per requested column,
        read as of the shifted query dates; None where `shift_dates` or
        `dates[0]` raises, and then no column is loaded. */
    method LoadAdjustedArray(columns: seq<Column>, dates: seq<Date>, sids: seq<int>, sessions: seq<Date>)
      returns (out: Option<map<Column, AdjustedArray>>)
      requires Valid()
      modifies this
      ensures Valid()
      ensures out.None? <==> |dates| == 0 || ShiftDates(sessions, dates[0], dates[|dates| - 1]).None?
      ensures out.None? ==> colCache == old(colCache)
      ensures out.Some? ==>
        var shifted := ShiftDates(sessions, dates[0], dates[|dates| - 1]).value;
        && ArraysOf(out.value, columns, source, shifted, sids)
        && Extends(colCache, old(colCache), columns)
    {
      if |dates| == 0 {
        return None;
      }
      var sh := ShiftDates(sessions, dates[0], dates[|dates| - 1]);
      if sh.None? {
        return None;
      }
      var m := LoadArrays(columns, sh.value, sids);
      out := Some(m);
    }
  }
}
