/** The per-symbol loop of the Tiingo bundle: each symbol's daily bars are
    fetched, reconciled with the session calendar, and their splits and
    dividends appended to the bundle's shared adjustment tables. */
module TiingoPricing {
  import opened Wrappers
  import opened Calendar
  import opened SessionReconciler

  /** A dividend is paid this many sessions after its ex-date. */
  const PayDateLag: nat := 10
  /** The pricing sessions run until this many days after today. */
  const HorizonDays: int := 20

  /** A row of the `splits` table: index, effective_date, ratio, sid. */
  datatype SplitRow = SplitRow(index: nat, effectiveDate: Date, ratio: Option<real>, sid: int)

  /** A row of the `divs` table. */
  datatype DividendRow = DividendRow(
    index: nat, exDate: Date, recordDate: Date, declaredDate: Date,
    payDate: Date, amount: Option<real>, sid: int)

  /** One symbol's answer from the price endpoint: its bars, or an exception. */
  datatype Fetch = Fetched(bars: seq<Bar>) | FetchFailed

  /** The sessions `_pricing_iter` looks pay dates up in. */
  function PricingSessions(cal: seq<Date>, today: Date): (r: seq<Date>)
    ensures forall d :: d in r <==> d in cal && PricingStart <= d <= today + HorizonDays
    ensures StrictlyIncreasing(cal) ==> StrictlyIncreasing(r)
  {
    SessionsInRange(cal, PricingStart, today + HorizonDays)
  }

  /** `1. / split`; a NaN split, or a zero one (whose reciprocal is infinite),
      gives no finite ratio. */
  function Ratio(split: Option<real>): (r: Option<real>)
    ensures r.Some? <==> split.Some? && split.value != 0.0
    ensures r.Some? ==> r.value * split.value == 1.0
    ensures r.Some? ==> (r.value > 0.0 <==> split.value > 0.0)
  {
    if split.Some? && split.value != 0.0 then Some(1.0 / split.value) else None
  }

  /** `df[df['split'] != 1.0]`: the rows whose split is not 1 (NaN included). */
  function SplitDays(rows: seq<Bar>): (r: seq<Bar>)
    ensures forall x :: x in r <==> x in rows && x.split != Some(1.0)
    ensures Ascending(rows) ==> Ascending(r)
  {
    if rows == [] then []
    else
      var rest := SplitDays(rows[1..]);
      if rows[0].split == Some(1.0) then rest
      else
        if Ascending(rows) then
          AscendingTailAbove(rows, rest);
          [rows[0]] + rest
        else [rows[0]] + rest
  }

  /** `df[df['dividend'] != 0.0]`: the rows whose dividend is not 0 (NaN included). */
  function DividendDays(rows: seq<Bar>): (r: seq<Bar>)
    ensures forall x :: x in r <==> x in rows && x.dividend != Some(0.0)
    ensures Ascending(rows) ==> Ascending(r)
  {
    if rows == [] then []
    else
      var rest := DividendDays(rows[1..]);
      if rows[0].dividend == Some(0.0) then rest
      else
        if Ascending(rows) then
          AscendingTailAbove(rows, rest);
          [rows[0]] + rest
        else [rows[0]] + rest
  }

  /** A row followed by rows drawn from the later rows of an ascending frame
      stays ascending. */
  lemma AscendingTailAbove(rows: seq<Bar>, rest: seq<Bar>)
    requires Ascending(rows) && |rows| > 0
    requires forall y :: y in rest ==> y in rows[1..]
    requires Ascending(rest)
    ensures Ascending([rows[0]] + rest)
  {
    forall y | y in rest ensures rows[0].date < y.date {
      var k :| 0 <= k < |rows[1..]| && rows[1..][k] == y;
      assert rows[k + 1] == y;
    }
    AscendingCons(rows[0], rest);
  }

  /** The split rows one symbol contributes, indexed from `base` onward. */
  function SplitTable(rows: seq<Bar>, sid: int, base: nat): (t: seq<SplitRow>)
    ensures |t| == |SplitDays(rows)|
  {
    var days := SplitDays(rows);
    seq(|days|, i requires 0 <= i < |days| => SplitRow(base + i, days[i].date, Ratio(days[i].split), sid))
  }

  /** `sessions[sessions.get_loc(ex_date) + 10]`, or None where `get_loc`
      raises (not a session) or the index runs past the last session. */
  function PayDate(sessions: seq<Date>, exDate: Date): (r: Option<Date>)
    ensures exDate !in sessions ==> r.None?
    ensures r.Some? ==>
      exists k :: 0 <= k && k + PayDateLag < |sessions| && sessions[k] == exDate && r.value == sessions[k + PayDateLag]
  {
    match IndexOf(sessions, exDate)
    case None => None
    case Some(k) => if k + PayDateLag < |sessions| then Some(sessions[k + PayDateLag]) else None
  }

  /** The dividend rows one symbol contributes, indexed from `base` onward;
      None when a pay-date lookup raises, so that nothing is appended. */
  function DividendTable(sessions: seq<Date>, rows: seq<Bar>, sid: int, base: nat): (t: Option<seq<DividendRow>>)
    ensures t.Some? <==> forall x :: x in DividendDays(rows) ==> PayDate(sessions, x.date).Some?
    ensures t.Some? ==> |t.value| == |DividendDays(rows)|
  {
    var days := DividendDays(rows);
    if forall i :: 0 <= i < |days| ==> PayDate(sessions, days[i].date).Some? then
      Some(seq(|days|, i requires 0 <= i < |days| =>
        DividendRow(base + i, days[i].date, UnknownDate, UnknownDate,
                    PayDate(sessions, days[i].date).value, days[i].dividend, sid)))
    else
      assert exists i :: 0 <= i < |days| && PayDate(sessions, days[i].date).None?;
      None
  }

  /** Every row carries its own position as index, as the `Index(range(n, n + m))`
      relabelling keeps it. */
  predicate SplitsIndexed(s: seq<SplitRow>) {
    forall i :: 0 <= i < |s| ==> s[i].index == i
  }

  predicate DivsIndexed(s: seq<DividendRow>) {
    forall i :: 0 <= i < |s| ==> s[i].index == i
  }

  function Firsts(w: seq<(int, seq<Bar>)>): seq<int> {
    seq(|w|, i requires 0 <= i < |w| => w[i].0)
  }

  /** Everything the loop has produced after some symbols: the two tables, the
      caller's `sids_written`, the yielded `(sid, df)` pairs, the frame bound to
      `df` (if any), and whether an exception escaped the generator. */
  datatype Progress = Progress(
    splits: seq<SplitRow>, divs: seq<DividendRow>, sidsWritten: seq<int>,
    written: seq<(int, seq<Bar>)>, df: Option<seq<Bar>>, crashed: bool)

  /** The state when the loop starts: the caller's tables and `sids_written`,
      nothing yielded, `df` not yet bound. */
  function Start(splits: seq<SplitRow>, divs: seq<DividendRow>, sidsWritten: seq<int>): Progress {
    Progress(splits, divs, sidsWritten, [], None, false)
  }

  /** One pass of the `for symbol in it` body. */
  function Step(cal: seq<Date>, today: Date, sidMap: map<string, int>, fetch: string -> Fetch,
                p: Progress, symbol: string): Progress
  {
    if p.crashed then p
    else if symbol !in sidMap then p.(crashed := true)
    else
      var sid := sidMap[symbol];
      match fetch(symbol)
      case FetchFailed =>
        if p.df.None? then p.(sidsWritten := p.sidsWritten + [sid], crashed := true)
        else p.(sidsWritten := p.sidsWritten + [sid], written := p.written + [(sid, p.df.value)])
      case Fetched(bars) =>
        if bars == [] then p.(df := Some([]))
        else Appended(PricingSessions(cal, today), p, sid, Reconciled(cal, bars))
  }

  /** The tail of the loop body for a non-empty reconciled frame `rec`: its
      splits, and its dividends unless a pay-date lookup raises, are appended to
      the tables; the sid is written and `(sid, rec)` yielded. */
  function Appended(sessions: seq<Date>, p: Progress, sid: int, rec: seq<Bar>): Progress {
    var splits := p.splits + SplitTable(rec, sid, |p.splits|);
    var divs := match DividendTable(sessions, rec, sid, |p.divs|)
                case Some(t) => p.divs + t
                case None => p.divs;
    Progress(splits, divs, p.sidsWritten + [sid], p.written + [(sid, rec)], Some(rec), false)
  }

  /** The loop over a prefix of the symbols. */
  function Run(cal: seq<Date>, today: Date, sidMap: map<string, int>, fetch: string -> Fetch,
               p: Progress, symbols: seq<string>): Progress
  {
    if symbols == [] then p
    else Step(cal, today, sidMap, fetch, Run(cal, today, sidMap, fetch, p, symbols[..|symbols| - 1]), symbols[|symbols| - 1])
  }

  /** Every split table row comes from a split day of the reconciled frame,
      with its date, ratio 1/split and the symbol's sid, indexed on from `base`. */
  lemma SplitTableSound(rows: seq<Bar>, sid: int, base: nat)
    ensures var t := SplitTable(rows, sid, base);
      forall i :: 0 <= i < |t| ==>
        (&& t[i].index == base + i && t[i].sid == sid
         && exists x :: x in rows && x.split != Some(1.0) && t[i].effectiveDate == x.date && t[i].ratio == Ratio(x.split))
  {
    var days := SplitDays(rows);
    var t := SplitTable(rows, sid, base);
    forall i | 0 <= i < |t|
      ensures exists x :: x in rows && x.split != Some(1.0) && t[i].effectiveDate == x.date && t[i].ratio == Ratio(x.split)
    {
      assert days[i] in days;
    }
  }

  /** Every split day of the reconciled frame has its row in the split table. */
  lemma SplitTableComplete(rows: seq<Bar>, sid: int, base: nat)
    ensures var t := SplitTable(rows, sid, base);
      forall x :: x in rows && x.split != Some(1.0) ==>
        exists i :: 0 <= i < |t| && t[i] == SplitRow(base + i, x.date, Ratio(x.split), sid)
  {
    var days := SplitDays(rows);
    var t := SplitTable(rows, sid, base);
    forall x | x in rows && x.split != Some(1.0)
      ensures exists i :: 0 <= i < |t| && t[i] == SplitRow(base + i, x.date, Ratio(x.split), sid)
    {
      var i :| 0 <= i < |days| && days[i] == x;
      assert t[i] == SplitRow(base + i, x.date, Ratio(x.split), sid);
    }
  }

  /** A known pay date is the session ten sessions after the ex-date, and an
      ex-date among the last ten sessions has none. */
  lemma PayDateOfSession(sessions: seq<Date>, k: nat)
    requires StrictlyIncreasing(sessions) && k < |sessions|
    ensures PayDate(sessions, sessions[k]) ==
      if k + PayDateLag < |sessions| then Some(sessions[k + PayDateLag]) else None
  {
    IndexOfIncreasing(sessions, k);
  }

  /** One row of a dividend table whose pay dates are all known. */
  lemma DividendRowFacts(sessions: seq<Date>, rows: seq<Bar>, sid: int, base: nat, i: nat)
    requires StrictlyIncreasing(sessions)
    requires DividendTable(sessions, rows, sid, base).Some?
    requires i < |DividendTable(sessions, rows, sid, base).value|
    ensures var r := DividendTable(sessions, rows, sid, base).value[i];
      && r.index == base + i && r.sid == sid
      && r.recordDate == UnknownDate && r.declaredDate == UnknownDate
      && r.exDate < r.payDate
      && (exists k :: 0 <= k && k + PayDateLag < |sessions| && sessions[k] == r.exDate &&
            r.payDate == sessions[k + PayDateLag])
      && r.exDate == DividendDays(rows)[i].date && r.amount == DividendDays(rows)[i].dividend
  {
    var days := DividendDays(rows);
    var r := DividendTable(sessions, rows, sid, base).value[i];
    assert days[i] in days;
    var pd := PayDate(sessions, days[i].date);
    assert pd.Some?;
    var k :| 0 <= k && k + PayDateLag < |sessions| && sessions[k] == days[i].date && pd.value == sessions[k + PayDateLag];
    assert r.payDate == pd.value && r.exDate == sessions[k];
  }

  /** When every pay date is known, each dividend table row comes from a
      dividend day of the frame: ex-date the row's date, record and declared
      date 1800-01-01, pay date ten sessions later, amount the dividend, and
      the symbol's sid, indexed on from `base`. */
  lemma DividendTableSound(sessions: seq<Date>, rows: seq<Bar>, sid: int, base: nat)
    requires StrictlyIncreasing(sessions)
    requires DividendTable(sessions, rows, sid, base).Some?
    ensures var t := DividendTable(sessions, rows, sid, base).value;
      forall i :: 0 <= i < |t| ==>
        (&& t[i].index == base + i && t[i].sid == sid
         && t[i].recordDate == UnknownDate && t[i].declaredDate == UnknownDate
         && t[i].exDate < t[i].payDate
         && (exists k :: 0 <= k && k + PayDateLag < |sessions| && sessions[k] == t[i].exDate &&
               t[i].payDate == sessions[k + PayDateLag])
         && exists x :: x in rows && x.dividend != Some(0.0) && t[i].exDate == x.date && t[i].amount == x.dividend)
  {
    var days := DividendDays(rows);
    var t := DividendTable(sessions, rows, sid, base).value;
    forall i | 0 <= i < |t|
      ensures && t[i].index == base + i && t[i].sid == sid
              && t[i].recordDate == UnknownDate && t[i].declaredDate == UnknownDate
              && t[i].exDate < t[i].payDate
              && (exists k :: 0 <= k && k + PayDateLag < |sessions| && sessions[k] == t[i].exDate &&
                    t[i].payDate == sessions[k + PayDateLag])
              && exists x :: x in rows && x.dividend != Some(0.0) && t[i].exDate == x.date && t[i].amount == x.dividend
    {
      DividendRowFacts(sessions, rows, sid, base, i);
      assert days[i] in days;
    }
  }

  /** When every pay date is known, every dividend day of the frame has its
      row in the dividend table. */
  lemma DividendTableComplete(sessions: seq<Date>, rows: seq<Bar>, sid: int, base: nat)
    requires StrictlyIncreasing(sessions)
    requires DividendTable(sessions, rows, sid, base).Some?
    ensures var t := DividendTable(sessions, rows, sid, base).value;
      forall x :: x in rows && x.dividend != Some(0.0) ==>
        exists i :: 0 <= i < |t| && t[i].exDate == x.date && t[i].amount == x.dividend
  {
    var days := DividendDays(rows);
    var t := DividendTable(sessions, rows, sid, base).value;
    forall x | x in rows && x.dividend != Some(0.0)
      ensures exists i :: 0 <= i < |t| && t[i].exDate == x.date && t[i].amount == x.dividend
    {
      var i :| 0 <= i < |days| && days[i] == x;
      DividendRowFacts(sessions, rows, sid, base, i);
    }
  }

  /** A dividend day that is not a session, or one of the last ten sessions,
      makes the whole dividend table of that symbol fail. */
  lemma DividendTableFails(sessions: seq<Date>, rows: seq<Bar>, sid: int, base: nat, x: Bar)
    requires StrictlyIncreasing(sessions)
    requires x in rows && x.dividend != Some(0.0)
    requires x.date !in sessions || exists k :: 0 <= k < |sessions| <= k + PayDateLag && sessions[k] == x.date
    ensures DividendTable(sessions, rows, sid, base).None?
  {
    assert x in DividendDays(rows);
    if x.date in sessions {
      var k :| 0 <= k < |sessions| <= k + PayDateLag && sessions[k] == x.date;
      PayDateOfSession(sessions, k);
    }
  }

  predicate Indexed(p: Progress) {
    SplitsIndexed(p.splits) && DivsIndexed(p.divs)
  }

  /** `sids_written` holds the caller's sids followed by the sid of every
      yielded pair, plus, after an `UnboundLocalError`, the one sid appended
      just before it. */
  predicate SidsInStep(initial: seq<int>, p: Progress) {
    && initial + Firsts(p.written) <= p.sidsWritten
    && |p.sidsWritten| <= |initial| + |p.written| + (if p.crashed then 1 else 0)
  }

  lemma SplitsAppend(s: seq<SplitRow>, t: seq<SplitRow>)
    requires SplitsIndexed(s) && forall i :: 0 <= i < |t| ==> t[i].index == |s| + i
    ensures SplitsIndexed(s + t)
  {
  }

  lemma DivsAppend(s: seq<DividendRow>, t: seq<DividendRow>)
    requires DivsIndexed(s) && forall i :: 0 <= i < |t| ==> t[i].index == |s| + i
    ensures DivsIndexed(s + t)
  {
  }

  /** Appending a symbol's tables continues the index from the current table size. */
  lemma AppendedIndexed(sessions: seq<Date>, p: Progress, sid: int, rec: seq<Bar>)
    ensures var q := Appended(sessions, p, sid, rec);
      && p.splits <= q.splits && p.divs <= q.divs && p.sidsWritten <= q.sidsWritten && p.written <= q.written
      && (Indexed(p) ==> Indexed(q))
  {
    var t := SplitTable(rec, sid, |p.splits|);
    var dt := DividendTable(sessions, rec, sid, |p.divs|);
    if Indexed(p) {
      SplitsAppend(p.splits, t);
      if dt.Some? {
        DivsAppend(p.divs, dt.value);
      }
    }
  }

  /** A step only appends to the tables and the lists, and the rows it appends
      continue the index from the current table size. */
  lemma StepAppends(cal: seq<Date>, today: Date, sidMap: map<string, int>, fetch: string -> Fetch,
                    p: Progress, symbol: string)
    ensures var q := Step(cal, today, sidMap, fetch, p, symbol);
      && p.splits <= q.splits && p.divs <= q.divs && p.sidsWritten <= q.sidsWritten && p.written <= q.written
      && (Indexed(p) ==> Indexed(q))
  {
    if !p.crashed && symbol in sidMap && fetch(symbol).Fetched? && fetch(symbol).bars != [] {
      AppendedIndexed(PricingSessions(cal, today), p, sidMap[symbol], Reconciled(cal, fetch(symbol).bars));
    }
  }

  /** The whole loop only appends, and keeps every table row indexed by its position. */
  lemma {:induction false} RunAppends(cal: seq<Date>, today: Date, sidMap: map<string, int>, fetch: string -> Fetch,
                                      p: Progress, symbols: seq<string>)
    ensures var r := Run(cal, today, sidMap, fetch, p, symbols);
      && p.splits <= r.splits && p.divs <= r.divs && p.sidsWritten <= r.sidsWritten && p.written <= r.written
      && (Indexed(p) ==> Indexed(r))
  {
    if symbols != [] {
      var prev := symbols[..|symbols| - 1];
      RunAppends(cal, today, sidMap, fetch, p, prev);
      StepAppends(cal, today, sidMap, fetch, Run(cal, today, sidMap, fetch, p, prev), symbols[|symbols| - 1]);
    }
  }

  /** Once an exception has escaped the generator, later symbols change nothing. */
  lemma {:induction false} CrashAbsorbs(cal: seq<Date>, today: Date, sidMap: map<string, int>, fetch: string -> Fetch,
                                        p: Progress, symbols: seq<string>, n: nat)
    requires n <= |symbols| && Run(cal, today, sidMap, fetch, p, symbols[..n]).crashed
    ensures Run(cal, today, sidMap, fetch, p, symbols) == Run(cal, today, sidMap, fetch, p, symbols[..n])
  {
    if n == |symbols| {
      assert symbols[..n] == symbols;
    } else {
      var prev := symbols[..|symbols| - 1];
      assert prev[..n] == symbols[..n];
      CrashAbsorbs(cal, today, sidMap, fetch, p, prev, n);
    }
  }

  /** What one step does to `sids_written` and the yielded pairs: nothing
      (a crash carried on, or a missing symbol), one sid before an
      `UnboundLocalError`, or one sid together with the pair it yields. */
  predicate SidsStep(q: Progress, r: Progress) {
    || (r.sidsWritten == q.sidsWritten && r.written == q.written && (q.crashed ==> r.crashed))
    || (&& !q.crashed && r.crashed && r.written == q.written
        && |r.sidsWritten| == |q.sidsWritten| + 1 && q.sidsWritten <= r.sidsWritten)
    || (&& !q.crashed && !r.crashed && |r.written| == |q.written| + 1 && r.written[..|q.written|] == q.written
        && r.sidsWritten == q.sidsWritten + [r.written[|q.written|].0])
  }

  lemma StepSids(cal: seq<Date>, today: Date, sidMap: map<string, int>, fetch: string -> Fetch,
                 q: Progress, symbol: string)
    ensures SidsStep(q, Step(cal, today, sidMap, fetch, q, symbol))
  {
    var r := Step(cal, today, sidMap, fetch, q, symbol);
    if !q.crashed && symbol in sidMap && r.written != q.written {
      assert r.written == q.written + [r.written[|q.written|]];
      assert r.written[..|q.written|] == q.written;
    }
  }

  /** The step relation keeps the `sids_written` invariant. */
  lemma SidsStepKeeps(initial: seq<int>, q: Progress, r: Progress)
    requires SidsInStep(initial, q) && (!q.crashed ==> q.sidsWritten == initial + Firsts(q.written))
    requires SidsStep(q, r)
    ensures SidsInStep(initial, r) && (!r.crashed ==> r.sidsWritten == initial + Firsts(r.written))
  {
    if !q.crashed && !r.crashed && r.written != q.written {
      assert r.written == q.written + [r.written[|q.written|]];
      assert Firsts(r.written) == Firsts(q.written) + [r.written[|q.written|].0];
    }
  }

  /** After the loop, `sids_written` (which `tiingo_bundle` uses to keep the
      metadata of written assets) lists exactly the sids of the yielded pairs,
      unless the generator ended with an exception. */
  lemma {:induction false} RunSidsWritten(cal: seq<Date>, today: Date, sidMap: map<string, int>, fetch: string -> Fetch,
                                          p: Progress, symbols: seq<string>)
    requires p == Start(p.splits, p.divs, p.sidsWritten)
    ensures SidsInStep(p.sidsWritten, Run(cal, today, sidMap, fetch, p, symbols))
    ensures var r := Run(cal, today, sidMap, fetch, p, symbols);
      !r.crashed ==> r.sidsWritten == p.sidsWritten + Firsts(r.written)
  {
    if symbols == [] {
      assert Firsts(p.written) == [];
    } else {
      var prev := symbols[..|symbols| - 1];
      RunSidsWritten(cal, today, sidMap, fetch, p, prev);
      var q := Run(cal, today, sidMap, fetch, p, prev);
      StepSids(cal, today, sidMap, fetch, q, symbols[|symbols| - 1]);
      SidsStepKeeps(p.sidsWritten, q, Run(cal, today, sidMap, fetch, p, symbols));
    }
  }

  /** A pay-date lookup that raises loses that symbol's dividends only: its
      splits are still appended, its sid is still written and its frame still
      yielded. */
  lemma PayDateFailureKeepsSplits(cal: seq<Date>, today: Date, sidMap: map<string, int>, fetch: string -> Fetch,
                                  p: Progress, symbol: string)
    requires !p.crashed && symbol in sidMap && fetch(symbol).Fetched? && fetch(symbol).bars != []
    requires DividendTable(PricingSessions(cal, today), Reconciled(cal, fetch(symbol).bars), sidMap[symbol], |p.divs|).None?
    ensures var q := Step(cal, today, sidMap, fetch, p, symbol);
      var rec := Reconciled(cal, fetch(symbol).bars);
      && q.divs == p.divs
      && q.splits == p.splits + SplitTable(rec, sidMap[symbol], |p.splits|)
      && q.sidsWritten == p.sidsWritten + [sidMap[symbol]]
      && q.written == p.written + [(sidMap[symbol], rec)]
      && !q.crashed
  {
  }

  function SampleFetch(symbol: string): Fetch {
    if symbol == "AAA" then Fetched([SampleBar(10), SampleBar(11), SampleBar(12)])
    else if symbol == "EMPTY" then Fetched([])
    else FetchFailed
  }

  /** A sample: with the calendar 10, 11, 12, bars on each of those sessions
      are unchanged by reconciliation. */
  lemma SampleBarsReconciled()
    ensures var bars := [SampleBar(10), SampleBar(11), SampleBar(12)];
      Reconciled([10, 11, 12], bars) == bars
  {
    var bars := [SampleBar(10), SampleBar(11), SampleBar(12)];
    assert RangeSessions([10, 11, 12], bars) == [10, 11, 12];
  }

  /** The sample bars have neither splits nor dividends. */
  lemma SampleBarsTables(sessions: seq<Date>, sid: int)
    ensures var bars := [SampleBar(10), SampleBar(11), SampleBar(12)];
      && SplitTable(bars, sid, 0) == []
      && DividendTable(sessions, bars, sid, 0) == Some([])
  {
    var bars := [SampleBar(10), SampleBar(11), SampleBar(12)];
    assert |SplitDays(bars)| == 0 by {
      forall x | x in bars ensures x.split == Some(1.0) { }
    }
    assert |DividendDays(bars)| == 0 by {
      forall x | x in bars ensures x.dividend == Some(0.0) { }
    }
  }

  /** The sample symbol "AAA" fetched first: its frame is yielded unchanged under sid 1. */
  lemma SampleFirstStep()
    ensures var bars := [SampleBar(10), SampleBar(11), SampleBar(12)];
      Step([10, 11, 12], 20000, map["AAA" := 1, "BBB" := 2], SampleFetch, Start([], [], []), "AAA")
        == Progress([], [], [1], [(1, bars)], Some(bars), false)
  {
    SampleBarsReconciled();
    SampleBarsTables(PricingSessions([10, 11, 12], 20000), 1);
  }

  /** "BBB" then fails: the frame still bound to `df` is yielded under sid 2. */
  lemma SampleSecondStep(q1: Progress)
    requires q1 == Progress([], [], [1], [(1, [SampleBar(10), SampleBar(11), SampleBar(12)])],
                            Some([SampleBar(10), SampleBar(11), SampleBar(12)]), false)
    ensures var bars := [SampleBar(10), SampleBar(11), SampleBar(12)];
      Step([10, 11, 12], 20000, map["AAA" := 1, "BBB" := 2], SampleFetch, q1, "BBB")
        == Progress([], [], [1, 2], [(1, bars), (2, bars)], Some(bars), false)
  {
    assert SampleFetch("BBB") == FetchFailed;
  }

  /** A failed fetch still writes its sid and yields the previous symbol's
      frame under it: here "BBB" fails after "AAA" succeeded. */
  lemma FailedFetchYieldsStaleFrame()
    ensures var bars := [SampleBar(10), SampleBar(11), SampleBar(12)];
      var r := Run([10, 11, 12], 20000, map["AAA" := 1, "BBB" := 2], SampleFetch, Start([], [], []), ["AAA", "BBB"]);
      && r.written == [(1, bars), (2, bars)] && r.sidsWritten == [1, 2] && !r.crashed
  {
    var bars := [SampleBar(10), SampleBar(11), SampleBar(12)];
    var cal := [10, 11, 12];
    var sidMap := map["AAA" := 1, "BBB" := 2];
    var symbols := ["AAA", "BBB"];
    var q1 := Progress([], [], [1], [(1, bars)], Some(bars), false);
    SampleFirstStep();
    assert symbols[..1] == ["AAA"] && symbols[..1][..0] == [];
    assert Run(cal, 20000, sidMap, SampleFetch, Start([], [], []), symbols[..1]) == q1;
    SampleSecondStep(q1);
    assert Run(cal, 20000, sidMap, SampleFetch, Start([], [], []), symbols)
      == Progress([], [], [1, 2], [(1, bars), (2, bars)], Some(bars), false);
  }

  /** A failed fetch before any frame was bound appends its sid and then ends
      the generator (`UnboundLocalError`); an empty fetch binds an empty frame,
      which a later failure then yields. */
  lemma FailureWithoutFrame()
    ensures var r := Run([10], 20000, map["BBB" := 2], SampleFetch, Start([], [], []), ["BBB"]);
      r.crashed && r.sidsWritten == [2] && r.written == []
    ensures var r := Run([10], 20000, map["EMPTY" := 3, "BBB" := 2], SampleFetch, Start([], [], []), ["EMPTY", "BBB"]);
      !r.crashed && r.sidsWritten == [2] && r.written == [(2, [])]
  {
    var one := ["BBB"];
    assert one[..0] == [];
    var two := ["EMPTY", "BBB"];
    assert two[..1] == ["EMPTY"] && two[..1][..0] == [];
  }

  /** The `divs_splits` dictionary: the two tables the loop appends to. */
  class DivsSplits {
    var splits: seq<SplitRow>
    var divs: seq<DividendRow>

    constructor ()
      ensures splits == [] && divs == []
    {
      splits := [];
      divs := [];
    }
  }

  /** The caller's `sids_written` list. */
  class SidList {
    var sids: seq<int>

    constructor ()
      ensures sids == []
    {
      sids := [];
    }
  }

  /** The mutable state of the loop holds the progress `p`. */
  ghost predicate Holds(p: Progress, divsSplits: DivsSplits, sidsWritten: SidList,
                        written: seq<(int, seq<Bar>)>, crashed: bool, df: Frame?)
    reads divsSplits, sidsWritten, df
  {
    && divsSplits.splits == p.splits && divsSplits.divs == p.divs && sidsWritten.sids == p.sidsWritten
    && written == p.written && crashed == p.crashed
    && (df == null <==> p.df.None?) && (df != null ==> df.rows == p.df.value)
  }

  /** One pass of the loop body on the live state: afterwards the state holds
      `Step` of the progress it held before. */
  method PricingStep(symbol: string, divsSplits: DivsSplits, sidsWritten: SidList,
                     cal: seq<Date>, today: Date, sidMap: map<string, int>, fetch: string -> Fetch,
                     sessions: seq<Date>, written: seq<(int, seq<Bar>)>, df: Frame?, ghost p: Progress)
    returns (written': seq<(int, seq<Bar>)>, crashed': bool, df': Frame?)
    requires sessions == PricingSessions(cal, today)
    requires Holds(p, divsSplits, sidsWritten, written, false, df)
    modifies divsSplits, sidsWritten
    ensures Holds(Step(cal, today, sidMap, fetch, p, symbol), divsSplits, sidsWritten, written', crashed', df')
    ensures df' == df || fresh(df')
  {
    written', crashed', df' := written, false, df;
    if symbol !in sidMap {
      crashed' := true;
      return;
    }
    var sid := sidMap[symbol];
    match fetch(symbol)
    case FetchFailed =>
      sidsWritten.sids := sidsWritten.sids + [sid];
      if df == null {
        crashed' := true;
      } else {
        written' := written + [(sid, df.rows)];
      }
    case Fetched(bars) =>
      if bars == [] {
        df' := new Frame([]);
      } else {
        var frame := new Frame(bars);
        frame := FillDailyGaps(cal, frame);
        DropExtraSessions(cal, frame);
        assert frame.rows == Reconciled(cal, bars);
        divsSplits.splits := divsSplits.splits + SplitTable(frame.rows, sid, |divsSplits.splits|);
        var divs := DividendTable(sessions, frame.rows, sid, |divsSplits.divs|);
        if divs.Some? {
          divsSplits.divs := divsSplits.divs + divs.value;
        }
        sidsWritten.sids := sidsWritten.sids + [sid];
        written' := written + [(sid, frame.rows)];
        df' := frame;
      }
  }

  /** `_pricing_iter` run to the end: the yielded pairs, the two tables and
      `sids_written` are those of `Run`, and `crashed` tells whether an
      exception escaped. */
  method PricingIter(symbols: seq<string>, divsSplits: DivsSplits, sidsWritten: SidList,
                     cal: seq<Date>, today: Date, sidMap: map<string, int>, fetch: string -> Fetch)
    returns (written: seq<(int, seq<Bar>)>, crashed: bool)
    modifies divsSplits, sidsWritten
    ensures var r := Run(cal, today, sidMap, fetch, Start(old(divsSplits.splits), old(divsSplits.divs), old(sidsWritten.sids)), symbols);
      && divsSplits.splits == r.splits && divsSplits.divs == r.divs && sidsWritten.sids == r.sidsWritten
      && written == r.written && crashed == r.crashed
  {
    ghost var p0 := Start(divsSplits.splits, divsSplits.divs, sidsWritten.sids);
    var sessions := PricingSessions(cal, today);
    var df: Frame? := null;
    written := [];
    crashed := false;
    var i := 0;
    while i < |symbols| && !crashed
      invariant 0 <= i <= |symbols|
      invariant df != null ==> fresh(df)
      invariant Holds(Run(cal, today, sidMap, fetch, p0, symbols[..i]), divsSplits, sidsWritten, written, crashed, df)
    {
      ghost var p := Run(cal, today, sidMap, fetch, p0, symbols[..i]);
      assert symbols[..i + 1][..i] == symbols[..i];
      assert Run(cal, today, sidMap, fetch, p0, symbols[..i + 1]) == Step(cal, today, sidMap, fetch, p, symbols[i]);
      written, crashed, df := PricingStep(symbols[i], divsSplits, sidsWritten, cal, today, sidMap, fetch,
                                          sessions, written, df, p);
      i := i + 1;
    }
    if crashed {
      CrashAbsorbs(cal, today, sidMap, fetch, p0, symbols, i);
    } else {
      assert symbols[..i] == symbols;
    }
  }
}
