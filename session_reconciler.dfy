/** Session reconciliation of one symbol's daily bars against the trading
    calendar: `fill_daily_gaps` and `drop_extra_sessions` in
    zipline/data/bundles/tiingo_api.py. */
module SessionReconciler {
  import opened Wrappers
  import opened Calendar

  /** One daily bar after the vendor's adjusted columns are dropped and
      splitFactor / divCash are renamed split / dividend. None is a NaN cell. */
  datatype Bar = Bar(date: Date, open: Option<real>, high: Option<real>, low: Option<real>,
                     close: Option<real>, volume: Option<real>, split: Option<real>, dividend: Option<real>)

  /** The frame's date index. */
  function Dates(rows: seq<Bar>): seq<Date> {
    seq(|rows|, i requires 0 <= i < |rows| => rows[i].date)
  }

  predicate Ascending(rows: seq<Bar>) {
    forall i, j :: 0 <= i < j < |rows| ==> rows[i].date < rows[j].date
  }

  lemma DatesMembers(rows: seq<Bar>)
    ensures forall d :: d in Dates(rows) <==> exists r :: r in rows && r.date == d
  {
    forall d ensures d in Dates(rows) <==> exists r :: r in rows && r.date == d {
      if d in Dates(rows) {
        var i :| 0 <= i < |rows| && Dates(rows)[i] == d;
        assert rows[i] in rows;
      }
      if exists r :: r in rows && r.date == d {
        var r :| r in rows && r.date == d;
        var i :| 0 <= i < |rows| && rows[i] == r;
        assert Dates(rows)[i] == d;
      }
    }
  }

  lemma AscendingDates(rows: seq<Bar>)
    requires Ascending(rows)
    ensures StrictlyIncreasing(Dates(rows))
  {
  }

  lemma AscendingCons(x: Bar, rows: seq<Bar>)
    requires Ascending(rows)
    requires forall y :: y in rows ==> x.date < y.date
    ensures Ascending([x] + rows)
  {
    forall i, j | 0 <= i < j < |[x] + rows| ensures ([x] + rows)[i].date < ([x] + rows)[j].date {
      assert rows[j - 1] in rows;
    }
  }

  /** In an ascending frame a date sits at one position only. */
  lemma AscendingUniqueDate(rows: seq<Bar>, p: nat, m: nat)
    requires Ascending(rows) && p < |rows| && m < |rows| && rows[p].date == rows[m].date
    ensures p == m
  {
    assert !(p < m);
    assert !(m < p);
  }

  /** The calendar sessions between the frame's first and last date. */
  function RangeSessions(cal: seq<Date>, rows: seq<Bar>): seq<Date>
    requires |rows| > 0
  {
    SessionsInRange(cal, rows[0].date, rows[|rows| - 1].date)
  }

  /** `xs.difference(ys)`: the elements of xs not in ys, in order. */
  function Difference(xs: seq<Date>, ys: seq<Date>): (r: seq<Date>)
    ensures forall d :: d in r <==> d in xs && d !in ys
    ensures StrictlyIncreasing(xs) ==> StrictlyIncreasing(r)
  {
    if xs == [] then []
    else if xs[0] in ys then Difference(xs[1..], ys)
    else
      var rest := Difference(xs[1..], ys);
      if StrictlyIncreasing(xs) then
        HeadBelowTail(xs);
        assert forall j :: 0 <= j < |rest| ==> xs[0] < rest[j] by {
          forall j | 0 <= j < |rest| ensures xs[0] < rest[j] {
            assert rest[j] in rest;
          }
        }
        [xs[0]] + rest
      else [xs[0]] + rest
  }

  /** A row appended for a missing session: every cell NaN. */
  function Blank(d: Date): Bar {
    Bar(d, None, None, None, None, None, None, None)
  }

  function Blanks(ds: seq<Date>): seq<Bar> {
    seq(|ds|, i requires 0 <= i < |ds| => Blank(ds[i]))
  }

  lemma BlanksFacts(ds: seq<Date>)
    ensures forall x :: x in Blanks(ds) ==> x == Blank(x.date) && x.date in ds
    ensures StrictlyIncreasing(ds) ==> Ascending(Blanks(ds))
  {
    forall x | x in Blanks(ds) ensures x == Blank(x.date) && x.date in ds {
      var i :| 0 <= i < |ds| && Blanks(ds)[i] == x;
    }
  }

  /** `append(...).sort_index()` of the frame and the blank rows, as a merge by
      date. It equals the sort only when the frame is in ascending date order
      (the blank rows always are), which the lemmas about `fill_daily_gaps`
      require. */
  function Merge(a: seq<Bar>, b: seq<Bar>): (r: seq<Bar>)
    ensures |r| == |a| + |b|
    decreases |a| + |b|
  {
    if a == [] then b
    else if b == [] then a
    else if a[0].date <= b[0].date then [a[0]] + Merge(a[1..], b)
    else [b[0]] + Merge(a, b[1..])
  }

  /** The merge holds the rows of both frames and nothing else. */
  lemma {:induction false} MergeMembers(a: seq<Bar>, b: seq<Bar>)
    ensures forall x :: x in Merge(a, b) <==> x in a || x in b
    decreases |a| + |b|
  {
    if a != [] && b != [] {
      if a[0].date <= b[0].date {
        MergeMembers(a[1..], b);
        assert a == [a[0]] + a[1..];
      } else {
        MergeMembers(a, b[1..]);
        assert b == [b[0]] + b[1..];
      }
    }
  }

  /** Every row of s is dated after d. */
  predicate Above(d: Date, s: seq<Bar>) {
    forall y :: y in s ==> d < y.date
  }

  /** No date occurs in both frames. */
  predicate DisjointDates(a: seq<Bar>, b: seq<Bar>) {
    forall x, y :: x in a && y in b ==> x.date != y.date
  }

  lemma AscendingTail(rows: seq<Bar>)
    requires Ascending(rows) && rows != []
    ensures Ascending(rows[1..]) && Above(rows[0].date, rows[1..])
  {
    forall y | y in rows[1..] ensures rows[0].date < y.date {
      var k :| 0 <= k < |rows[1..]| && rows[1..][k] == y;
      assert rows[k + 1] == y;
    }
  }

  lemma AboveAll(d: Date, rows: seq<Bar>)
    requires Ascending(rows) && rows != [] && d < rows[0].date
    ensures Above(d, rows)
  {
    forall y | y in rows ensures d < y.date {
      var k :| 0 <= k < |rows| && rows[k] == y;
      assert rows[0].date <= rows[k].date;
    }
  }

  lemma {:induction false} MergeFacts(a: seq<Bar>, b: seq<Bar>)
    requires Ascending(a) && Ascending(b) && DisjointDates(a, b)
    ensures Ascending(Merge(a, b))
    decreases |a| + |b|
  {
    if a != [] && b != [] {
      if a[0].date <= b[0].date {
        assert a[0] in a && b[0] in b;
        AscendingTail(a);
        AboveAll(a[0].date, b);
        assert DisjointDates(a[1..], b) by {
          forall x, y | x in a[1..] && y in b ensures x.date != y.date {
            assert x in a;
          }
        }
        MergeFacts(a[1..], b);
        MergeMembers(a[1..], b);
        AscendingCons(a[0], Merge(a[1..], b));
      } else {
        AscendingTail(b);
        AboveAll(b[0].date, a);
        assert DisjointDates(a, b[1..]) by {
          forall x, y | x in a && y in b[1..] ensures x.date != y.date {
            assert y in b;
          }
        }
        MergeFacts(a, b[1..]);
        MergeMembers(a, b[1..]);
        AscendingCons(b[0], Merge(a, b[1..]));
      }
    }
  }

  /** `fillna(fallback)` on one cell. */
  function OrElse(x: Option<real>, fallback: Option<real>): Option<real> {
    if x.Some? then x else fallback
  }

  /** The close at position k after `close.fillna(method='ffill')`: its own
      close, else the filled close of the row before, else NaN. */
  function FfillClose(rows: seq<Bar>, k: nat): Option<real>
    requires k < |rows|
  {
    if rows[k].close.Some? then rows[k].close
    else if k == 0 then None
    else FfillClose(rows, k - 1)
  }

  /** One row after the seven `fillna` calls, given its filled close:
      dividend 0, split 1, volume 0, open/high/low the close. */
  function FilledRow(r: Bar, close: Option<real>): Bar {
    Bar(r.date, OrElse(r.open, close), OrElse(r.high, close), OrElse(r.low, close), close,
        OrElse(r.volume, Some(0.0)), OrElse(r.split, Some(1.0)), OrElse(r.dividend, Some(0.0)))
  }

  function ForwardFilled(rows: seq<Bar>): seq<Bar> {
    seq(|rows|, k requires 0 <= k < |rows| => FilledRow(rows[k], FfillClose(rows, k)))
  }

  /** One of the two early returns of `fill_daily_gaps` applies: the row count
      matches the session count, or no session is missing. */
  predicate FillFastPath(cal: seq<Date>, rows: seq<Bar>)
    requires |rows| > 0
  {
    |rows| == |RangeSessions(cal, rows)| || |Difference(RangeSessions(cal, rows), Dates(rows))| == 0
  }

  /** What `fill_daily_gaps` returns. */
  function FillDailyGapsSpec(cal: seq<Date>, rows: seq<Bar>): (out: seq<Bar>)
    requires |rows| > 0
    ensures |out| >= |rows|
  {
    var sessions := RangeSessions(cal, rows);
    if |rows| == |sessions| then rows
    else
      var toFill := Difference(sessions, Dates(rows));
      if |toFill| == 0 then rows
      else ForwardFilled(Merge(rows, Blanks(toFill)))
  }

  /** `df.drop(to_drop)`: the rows dated on a session, in order. */
  function KeepSessions(rows: seq<Bar>, sessions: seq<Date>): (r: seq<Bar>)
    ensures forall x :: x in r <==> x in rows && x.date in sessions
    ensures Ascending(rows) ==> Ascending(r)
  {
    if rows == [] then []
    else if rows[0].date !in sessions then KeepSessions(rows[1..], sessions)
    else
      var rest := KeepSessions(rows[1..], sessions);
      if Ascending(rows) then
        assert forall y :: y in rest ==> rows[0].date < y.date by {
          forall y | y in rest ensures rows[0].date < y.date {
            var k :| 0 <= k < |rows[1..]| && rows[1..][k] == y;
            assert rows[k + 1] == y;
          }
        }
        AscendingCons(rows[0], rest);
        [rows[0]] + rest
      else [rows[0]] + rest
  }

  /** What `drop_extra_sessions` leaves in the frame. */
  function DropExtraSessionsSpec(cal: seq<Date>, rows: seq<Bar>): seq<Bar>
    requires |rows| > 0
  {
    var sessions := RangeSessions(cal, rows);
    if |rows| == |sessions| then rows
    else
      var toDrop := Difference(Dates(rows), sessions);
      if |toDrop| == 0 then rows
      else KeepSessions(rows, sessions)
  }

  /** One symbol's bars after `fill_daily_gaps` and then `drop_extra_sessions`. */
  function Reconciled(cal: seq<Date>, rows: seq<Bar>): seq<Bar>
    requires |rows| > 0
  {
    DropExtraSessionsSpec(cal, FillDailyGapsSpec(cal, rows))
  }

  /** Every value present in `orig` is still present, unchanged, in `now`. */
  predicate KeepsPresent(orig: Bar, now: Bar) {
    && now.date == orig.date
    && (orig.open.Some? ==> now.open == orig.open)
    && (orig.high.Some? ==> now.high == orig.high)
    && (orig.low.Some? ==> now.low == orig.low)
    && (orig.close.Some? ==> now.close == orig.close)
    && (orig.volume.Some? ==> now.volume == orig.volume)
    && (orig.split.Some? ==> now.split == orig.split)
    && (orig.dividend.Some? ==> now.dividend == orig.dividend)
  }

  lemma AscendingBounds(rows: seq<Bar>)
    requires Ascending(rows) && |rows| > 0
    ensures forall x :: x in rows ==> rows[0].date <= x.date <= rows[|rows| - 1].date
  {
    forall x | x in rows ensures rows[0].date <= x.date <= rows[|rows| - 1].date {
      var k :| 0 <= k < |rows| && rows[k] == x;
      assert rows[0].date <= rows[k].date;
      assert rows[k].date <= rows[|rows| - 1].date;
    }
  }

  lemma ForwardFilledDates(rows: seq<Bar>)
    ensures Dates(ForwardFilled(rows)) == Dates(rows)
    ensures Ascending(rows) ==> Ascending(ForwardFilled(rows))
  {
  }

  /** Forward filling keeps the length and the first and last date. */
  lemma ForwardFilledEnds(rows: seq<Bar>)
    requires |rows| > 0
    ensures var out := ForwardFilled(rows);
      |out| == |rows| && out[0].date == rows[0].date && out[|out| - 1].date == rows[|rows| - 1].date
  {
  }

  /** The original rows merged with blank rows for dates they lack, in order. */
  lemma MergedAscending(rows: seq<Bar>, fill: seq<Date>)
    requires Ascending(rows) && StrictlyIncreasing(fill)
    requires forall d :: d in fill ==> d !in Dates(rows)
    ensures Ascending(Merge(rows, Blanks(fill)))
  {
    var blanks := Blanks(fill);
    BlanksFacts(fill);
    assert DisjointDates(rows, blanks) by {
      forall x, y | x in rows && y in blanks ensures x.date != y.date {
        var k :| 0 <= k < |rows| && rows[k] == x;
        assert Dates(rows)[k] == x.date;
      }
    }
    MergeFacts(rows, blanks);
  }

  lemma MergedDates(rows: seq<Bar>, fill: seq<Date>)
    ensures forall d :: d in Dates(Merge(rows, Blanks(fill))) <==> d in Dates(rows) || d in fill
  {
    var m := Merge(rows, Blanks(fill));
    BlanksFacts(fill);
    MergeMembers(rows, Blanks(fill));
    forall d ensures d in Dates(m) <==> d in Dates(rows) || d in fill {
      if d in Dates(m) {
        var k :| 0 <= k < |m| && Dates(m)[k] == d;
        assert m[k] in m;
        if m[k] in rows {
          var p :| 0 <= p < |rows| && rows[p] == m[k];
          assert Dates(rows)[p] == d;
        }
      }
      if d in Dates(rows) {
        var p :| 0 <= p < |rows| && Dates(rows)[p] == d;
        assert rows[p] in m;
        var k :| 0 <= k < |m| && m[k] == rows[p];
        assert Dates(m)[k] == d;
      }
      if d in fill {
        var i :| 0 <= i < |fill| && fill[i] == d;
        assert Blanks(fill)[i] in m;
        var k :| 0 <= k < |m| && m[k] == Blanks(fill)[i];
        assert Dates(m)[k] == d;
      }
    }
  }

  /** Merging rows dated no earlier than the first row keeps that row first. */
  lemma MergeFirst(a: seq<Bar>, b: seq<Bar>)
    requires |a| > 0
    requires forall y :: y in b ==> a[0].date <= y.date
    ensures Merge(a, b)[0] == a[0]
  {
    if b != [] {
      assert b[0] in b;
    }
  }

  /** Merging rows dated strictly before the last row of a frame whose last
      row is its latest keeps the last date. */
  lemma {:induction false} MergeLast(a: seq<Bar>, b: seq<Bar>)
    requires |a| > 0
    requires forall x :: x in a ==> x.date <= a[|a| - 1].date
    requires forall y :: y in b ==> y.date < a[|a| - 1].date
    ensures Merge(a, b)[|a| + |b| - 1].date == a[|a| - 1].date
    decreases |a| + |b|
  {
    if b != [] {
      assert b[0] in b && a[0] in a;
      if a[0].date <= b[0].date {
        assert |a| > 1;
        forall x | x in a[1..] ensures x.date <= a[1..][|a| - 2].date {
          assert x in a;
        }
        MergeLast(a[1..], b);
      } else {
        forall y | y in b[1..] ensures y.date < a[|a| - 1].date {
          assert y in b;
        }
        MergeLast(a, b[1..]);
      }
    }
  }

  /** The blank rows lie within the frame's range, before its last date, when
      the dates to fill do and are not dates of the frame. */
  lemma BlanksWithin(rows: seq<Bar>, fill: seq<Date>)
    requires |rows| > 0
    requires forall d :: d in fill ==> d !in Dates(rows)
    requires forall d :: d in fill ==> rows[0].date <= d <= rows[|rows| - 1].date
    ensures forall y :: y in Blanks(fill) ==> rows[0].date <= y.date < rows[|rows| - 1].date
  {
    BlanksFacts(fill);
    assert Dates(rows)[|rows| - 1] == rows[|rows| - 1].date;
  }

  /** Every row of the merged frame is an original row or a blank row for a
      date to fill. */
  lemma MergedMembers(rows: seq<Bar>, fill: seq<Date>)
    ensures forall x :: x in Merge(rows, Blanks(fill)) ==> x in rows || (x == Blank(x.date) && x.date in fill)
  {
    BlanksFacts(fill);
    MergeMembers(rows, Blanks(fill));
  }

  lemma InDates(rows: seq<Bar>, x: Bar)
    requires x in rows
    ensures x.date in Dates(rows)
  {
    var i :| 0 <= i < |rows| && rows[i] == x;
    assert Dates(rows)[i] == x.date;
  }

  /** What the sessions to fill satisfy: increasing, exactly the missing
      sessions, and within the frame's first and last date. */
  lemma ToFillFacts(cal: seq<Date>, rows: seq<Bar>)
    requires StrictlyIncreasing(cal) && |rows| > 0
    ensures var sessions := RangeSessions(cal, rows);
      var fill := Difference(sessions, Dates(rows));
      && StrictlyIncreasing(fill)
      && (forall d :: d in fill <==> d in sessions && d !in Dates(rows))
      && (forall d :: d in sessions ==> rows[0].date <= d <= rows[|rows| - 1].date)
  {
  }

  /** The slow path of `fill_daily_gaps` keeps the frame ascending. */
  lemma FilledFrameAscending(rows: seq<Bar>, fill: seq<Date>)
    requires Ascending(rows) && StrictlyIncreasing(fill)
    requires forall d :: d in fill ==> d !in Dates(rows)
    ensures Ascending(ForwardFilled(Merge(rows, Blanks(fill))))
  {
    MergedAscending(rows, fill);
    ForwardFilledDates(Merge(rows, Blanks(fill)));
  }

  /** Merging rows dated within a frame's range, before its last date, into a
      frame whose last row is its latest keeps the first and the last date. */
  lemma MergeEnds(a: seq<Bar>, b: seq<Bar>)
    requires |a| > 0 && forall x :: x in a ==> x.date <= a[|a| - 1].date
    requires forall y :: y in b ==> a[0].date <= y.date < a[|a| - 1].date
    ensures var m := Merge(a, b);
      m[0].date == a[0].date && m[|m| - 1].date == a[|a| - 1].date
  {
    MergeFirst(a, b);
    MergeLast(a, b);
  }

  /** Forward filling such a merge keeps the first and the last date. */
  lemma MergedFilledEnds(a: seq<Bar>, b: seq<Bar>)
    requires |a| > 0 && forall x :: x in a ==> x.date <= a[|a| - 1].date
    requires forall y :: y in b ==> a[0].date <= y.date < a[|a| - 1].date
    ensures var out := ForwardFilled(Merge(a, b));
      out[0].date == a[0].date && out[|out| - 1].date == a[|a| - 1].date
  {
    MergeEnds(a, b);
    ForwardFilledEnds(Merge(a, b));
  }

  /** The slow path of `fill_daily_gaps` keeps the first and the last date. */
  lemma FilledFrameEnds(rows: seq<Bar>, fill: seq<Date>)
    requires |rows| > 0 && forall x :: x in rows ==> x.date <= rows[|rows| - 1].date
    requires forall d :: d in fill ==> d !in Dates(rows)
    requires forall d :: d in fill ==> rows[0].date <= d <= rows[|rows| - 1].date
    ensures var out := ForwardFilled(Merge(rows, Blanks(fill)));
      out[0].date == rows[0].date && out[|out| - 1].date == rows[|rows| - 1].date
  {
    BlanksWithin(rows, fill);
    MergedFilledEnds(rows, Blanks(fill));
  }

  /** The slow path of `fill_daily_gaps` has the original dates and the filled ones. */
  lemma FilledFrameDates(rows: seq<Bar>, fill: seq<Date>)
    ensures forall d :: d in Dates(ForwardFilled(Merge(rows, Blanks(fill)))) <==> d in Dates(rows) || d in fill
  {
    MergedDates(rows, fill);
    ForwardFilledDates(Merge(rows, Blanks(fill)));
  }

  /** The slow path of `fill_daily_gaps`: the merged frame after the fills. */
  lemma FilledFrameIndex(rows: seq<Bar>, sessions: seq<Date>, fill: seq<Date>)
    requires Ascending(rows) && |rows| > 0 && StrictlyIncreasing(fill)
    requires forall d :: d in fill <==> d in sessions && d !in Dates(rows)
    requires forall d :: d in sessions ==> rows[0].date <= d <= rows[|rows| - 1].date
    ensures var out := ForwardFilled(Merge(rows, Blanks(fill)));
      && Ascending(out)
      && out[0].date == rows[0].date && out[|out| - 1].date == rows[|rows| - 1].date
      && (forall d :: d in Dates(out) <==> d in Dates(rows) || d in sessions)
  {
    FilledFrameAscending(rows, fill);
    AscendingBounds(rows);
    FilledFrameEnds(rows, fill);
    FilledFrameDates(rows, fill);
  }

  /** The index `fill_daily_gaps` returns: ascending, same first and last date;
      unchanged when the row count matches the session count, otherwise the
      original dates together with every session between them. */
  lemma FillDailyGapsIndex(cal: seq<Date>, rows: seq<Bar>)
    requires Ascending(rows) && StrictlyIncreasing(cal) && |rows| > 0
    ensures var out := FillDailyGapsSpec(cal, rows);
      var sessions := RangeSessions(cal, rows);
      && Ascending(out)
      && out[0].date == rows[0].date && out[|out| - 1].date == rows[|rows| - 1].date
      && (|rows| == |sessions| ==> out == rows)
      && ((forall d :: d in sessions ==> d in Dates(rows)) ==> out == rows)
      && (|rows| != |sessions| ==> forall d :: d in Dates(out) <==> d in Dates(rows) || d in sessions)
  {
    var sessions := RangeSessions(cal, rows);
    NoMissingSessionUnchanged(cal, rows);
    if |rows| != |sessions| && |Difference(sessions, Dates(rows))| > 0 {
      SlowPathIndex(cal, rows);
    }
  }

  /** The second fast path of `fill_daily_gaps`: when no session between the
      first and last date is missing, the frame is returned as it is, its NaN
      cells unfilled. */
  lemma NoMissingSessionUnchanged(cal: seq<Date>, rows: seq<Bar>)
    requires |rows| > 0
    ensures (forall d :: d in RangeSessions(cal, rows) ==> d in Dates(rows)) ==> FillDailyGapsSpec(cal, rows) == rows
  {
    var fill := Difference(RangeSessions(cal, rows), Dates(rows));
    if |fill| > 0 {
      assert fill[0] in fill;
    }
  }

  /** The index of the slow path of `fill_daily_gaps`. */
  lemma SlowPathIndex(cal: seq<Date>, rows: seq<Bar>)
    requires Ascending(rows) && StrictlyIncreasing(cal) && |rows| > 0
    requires |rows| != |RangeSessions(cal, rows)|
    requires |Difference(RangeSessions(cal, rows), Dates(rows))| > 0
    ensures var out := FillDailyGapsSpec(cal, rows);
      && Ascending(out)
      && out[0].date == rows[0].date && out[|out| - 1].date == rows[|rows| - 1].date
      && forall d :: d in Dates(out) <==> d in Dates(rows) || d in RangeSessions(cal, rows)
  {
    var sessions := RangeSessions(cal, rows);
    ToFillFacts(cal, rows);
    FilledFrameIndex(rows, sessions, Difference(sessions, Dates(rows)));
  }

  /** A row of the filled frame dated outside the original frame is a blank
      row, never the first, and takes the close of the row before. */
  lemma FilledFrameInserted(rows: seq<Bar>, fill: seq<Date>)
    requires |rows| > 0 && forall d :: d in fill ==> rows[0].date <= d
    ensures var out := ForwardFilled(Merge(rows, Blanks(fill)));
      forall k :: 0 <= k < |out| && out[k].date !in Dates(rows) ==>
        && 0 < k && out[k].close == out[k - 1].close
        && out[k].open == out[k].close && out[k].high == out[k].close && out[k].low == out[k].close
        && out[k].volume == Some(0.0) && out[k].split == Some(1.0) && out[k].dividend == Some(0.0)
  {
    var m := Merge(rows, Blanks(fill));
    var out := ForwardFilled(m);
    BlanksFacts(fill);
    MergeFirst(rows, Blanks(fill));
    MergedMembers(rows, fill);
    InDates(rows, rows[0]);
    forall k | 0 <= k < |out| && out[k].date !in Dates(rows)
      ensures && 0 < k && out[k].close == out[k - 1].close
              && out[k].open == out[k].close && out[k].high == out[k].close && out[k].low == out[k].close
              && out[k].volume == Some(0.0) && out[k].split == Some(1.0) && out[k].dividend == Some(0.0)
    {
      assert m[k] in m;
      if m[k] in rows {
        InDates(rows, m[k]);
      }
      assert m[k] == Blank(m[k].date);
    }
  }

  /** The rows `fill_daily_gaps` inserts carry dividend 0, split 1, volume 0 and
      the close of the row before as open, high, low and close. */
  lemma FillDailyGapsInserted(cal: seq<Date>, rows: seq<Bar>)
    requires Ascending(rows) && StrictlyIncreasing(cal) && |rows| > 0
    ensures var out := FillDailyGapsSpec(cal, rows);
      forall k :: 0 <= k < |out| && out[k].date !in Dates(rows) ==>
        && 0 < k && out[k].close == out[k - 1].close
        && out[k].open == out[k].close && out[k].high == out[k].close && out[k].low == out[k].close
        && out[k].volume == Some(0.0) && out[k].split == Some(1.0) && out[k].dividend == Some(0.0)
  {
    var out := FillDailyGapsSpec(cal, rows);
    var sessions := RangeSessions(cal, rows);
    var toFill := Difference(sessions, Dates(rows));
    if |rows| == |sessions| || |toFill| == 0 {
      forall k | 0 <= k < |out| ensures out[k].date in Dates(rows) {
        assert Dates(rows)[k] == out[k].date;
      }
    } else {
      ToFillFacts(cal, rows);
      assert out == ForwardFilled(Merge(rows, Blanks(toFill)));
      FilledFrameInserted(rows, toFill);
    }
  }

  /** A row of the filled frame dated like an original row is that row after
      the fills. */
  lemma FilledFrameKeeps(rows: seq<Bar>, fill: seq<Date>)
    requires Ascending(rows) && forall d :: d in fill ==> d !in Dates(rows)
    ensures var out := ForwardFilled(Merge(rows, Blanks(fill)));
      forall k, j :: 0 <= k < |out| && 0 <= j < |rows| && out[k].date == rows[j].date ==>
        KeepsPresent(rows[j], out[k])
  {
    var m := Merge(rows, Blanks(fill));
    var out := ForwardFilled(m);
    MergedMembers(rows, fill);
    forall k, j | 0 <= k < |out| && 0 <= j < |rows| && out[k].date == rows[j].date
      ensures KeepsPresent(rows[j], out[k])
    {
      assert m[k] in m;
      assert Dates(rows)[j] == rows[j].date;
      assert m[k] in rows;
      var p :| 0 <= p < |rows| && rows[p] == m[k];
      AscendingUniqueDate(rows, p, j);
    }
  }

  /** A value that was present in an original row is never altered by
      `fill_daily_gaps`. */
  lemma FillDailyGapsKeeps(cal: seq<Date>, rows: seq<Bar>)
    requires Ascending(rows) && StrictlyIncreasing(cal) && |rows| > 0
    ensures var out := FillDailyGapsSpec(cal, rows);
      forall k, j :: 0 <= k < |out| && 0 <= j < |rows| && out[k].date == rows[j].date ==>
        KeepsPresent(rows[j], out[k])
  {
    var out := FillDailyGapsSpec(cal, rows);
    var sessions := RangeSessions(cal, rows);
    var toFill := Difference(sessions, Dates(rows));
    if |rows| == |sessions| || |toFill| == 0 {
      forall k, j | 0 <= k < |out| && 0 <= j < |rows| && out[k].date == rows[j].date
        ensures KeepsPresent(rows[j], out[k])
      {
        AscendingUniqueDate(rows, k, j);
      }
    } else {
      ToFillFacts(cal, rows);
      assert out == ForwardFilled(Merge(rows, Blanks(toFill)));
      FilledFrameKeeps(rows, toFill);
    }
  }

  /** `drop_extra_sessions` keeps the frame ascending; it is the identity when the
      row count matches the session count, and otherwise keeps exactly the rows
      dated on a session. */
  lemma DropExtraSessionsRows(cal: seq<Date>, rows: seq<Bar>)
    requires Ascending(rows) && |rows| > 0
    ensures var out := DropExtraSessionsSpec(cal, rows);
      && Ascending(out)
      && (|rows| == |RangeSessions(cal, rows)| ==> out == rows)
      && (|rows| != |RangeSessions(cal, rows)| ==> forall x :: x in out <==> x in rows && x.date in cal)
  {
    var sessions := RangeSessions(cal, rows);
    AscendingBounds(rows);
    DatesMembers(rows);
    if |rows| != |sessions| {
      var toDrop := Difference(Dates(rows), sessions);
      if |toDrop| == 0 {
        forall x | x in rows ensures x.date in sessions {
          assert x.date in Dates(rows);
        }
      }
    }
  }

  /** Whenever the row-count fast path of `fill_daily_gaps` is not misled (the
      counts differ, or no session is missing), reconciliation leaves exactly
      one row per session between the first and last date. */
  lemma ReconciledMatchesSessions(cal: seq<Date>, rows: seq<Bar>)
    requires Ascending(rows) && StrictlyIncreasing(cal) && |rows| > 0
    requires |rows| != |RangeSessions(cal, rows)| || forall d :: d in RangeSessions(cal, rows) ==> d in Dates(rows)
    ensures Dates(Reconciled(cal, rows)) == RangeSessions(cal, rows)
  {
    var sessions := RangeSessions(cal, rows);
    var filled := FillDailyGapsSpec(cal, rows);
    FillDailyGapsIndex(cal, rows);
    assert RangeSessions(cal, filled) == sessions;
    AscendingDates(filled);
    assert forall d :: d in sessions ==> d in Dates(filled);
    DatesMembers(filled);
        if |filled| == |sessions| {
      IncreasingSubsetSameLength(sessions, Dates(filled));
    } else {
      var toDrop := Difference(Dates(filled), sessions);
      if |toDrop| == 0 {
        IncreasingUnique(sessions, Dates(filled));
      } else {
        var kept := KeepSessions(filled, sessions);
        AscendingDates(kept);
        DatesMembers(kept);
        forall d ensures d in Dates(kept) <==> d in sessions {
          if d in sessions {
            var x :| x in filled && x.date == d;
            assert x in kept;
          }
        }
        IncreasingUnique(Dates(kept), sessions);
      }
    }
  }

  /** Reconciling an already reconciled series returns it unchanged. */
  lemma ReconcileIdempotent(cal: seq<Date>, rows: seq<Bar>)
    requires |rows| > 0 && Dates(rows) == RangeSessions(cal, rows)
    ensures Reconciled(cal, rows) == rows
  {
    assert |Dates(rows)| == |rows|;
  }

  function SampleBar(d: Date): Bar {
    Bar(d, Some(1.0), Some(1.0), Some(1.0), Some(1.0), Some(100.0), Some(1.0), Some(0.0))
  }

  /** The row-count fast path: sessions 10, 12, 14 and bars dated 10, 11, 14 (one
      session missing, one non-session row) pass through both steps unchanged,
      so the reconciled index is not the session index. */
  lemma FastPathKeepsMisalignedSeries()
    ensures var cal := [10, 12, 14];
      var rows := [SampleBar(10), SampleBar(11), SampleBar(14)];
      && Ascending(rows)
      && Reconciled(cal, rows) == rows
      && Dates(Reconciled(cal, rows)) != RangeSessions(cal, rows)
  {
    var cal := [10, 12, 14];
    var rows := [SampleBar(10), SampleBar(11), SampleBar(14)];
    assert RangeSessions(cal, rows) == [10, 12, 14];
    assert Dates(rows)[1] == 11;
  }

  /** A pandas frame of daily bars; the methods below change it in place. */
  class Frame {
    var rows: seq<Bar>

    constructor (rows: seq<Bar>)
      ensures this.rows == rows
    {
      this.rows := rows;
    }

    /** The `fillna(..., inplace=True)` calls of `fill_daily_gaps`, row by row. */
    method FillNa()
      modifies this
      ensures rows == ForwardFilled(old(rows))
    {
      ghost var orig := rows;
      var carry: Option<real> := None;
      var i := 0;
      while i < |rows|
        invariant 0 <= i <= |rows| == |orig|
        invariant rows[i..] == orig[i..]
        invariant forall k :: 0 <= k < i ==> rows[k] == FilledRow(orig[k], FfillClose(orig, k))
        invariant carry == if i == 0 then None else FfillClose(orig, i - 1)
      {
        var r := rows[i];
        assert r == orig[i];
        var close := if r.close.Some? then r.close else carry;
        rows := rows[i := FilledRow(r, close)];
        carry := close;
        i := i + 1;
      }
    }
  }

  /** `fill_daily_gaps(df)`: returns df itself on either fast path, otherwise a
      new frame with the missing sessions inserted and the NaN cells filled. */
  method FillDailyGaps(cal: seq<Date>, df: Frame) returns (r: Frame)
    requires |df.rows| > 0
    ensures r.rows == FillDailyGapsSpec(cal, df.rows)
    ensures FillFastPath(cal, df.rows) ==> r == df
    ensures !FillFastPath(cal, df.rows) ==> fresh(r)
  {
    var sessions := RangeSessions(cal, df.rows);
    if |df.rows| == |sessions| {
      return df;
    }
    var toFill := Difference(sessions, Dates(df.rows));
    if |toFill| == 0 {
      return df;
    }
    r := new Frame(Merge(df.rows, Blanks(toFill)));
    r.FillNa();
  }

  /** `drop_extra_sessions(df)`: drops, in place, the rows not dated on a session. */
  method DropExtraSessions(cal: seq<Date>, df: Frame)
    requires |df.rows| > 0
    modifies df
    ensures df.rows == DropExtraSessionsSpec(cal, old(df.rows))
  {
    var sessions := RangeSessions(cal, df.rows);
    if |df.rows| == |sessions| {
      return;
    }
    var toDrop := Difference(Dates(df.rows), sessions);
    if |toDrop| == 0 {
      return;
    }
    df.rows := KeepSessions(df.rows, sessions);
  }
}
