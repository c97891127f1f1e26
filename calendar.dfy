/** The trading calendar, seen only through the operations the ingestion and
    the loader use: `sessions_in_range` and `get_loc` on an ordered session
    index. The calendar itself (NYSE holidays and so on) is a parameter. */
module Calendar {
  import opened Wrappers

  /** A calendar day, counted in days from 1970-01-01. */
  type Date = int

  /** 2000-01-01: the first day for which daily prices are requested. */
  const PricingStart: Date := 10957

  /** 1800-01-01: written as record and declared date of every dividend. */
  const UnknownDate: Date := -62091

  predicate StrictlyIncreasing(s: seq<Date>) {
    forall i, j :: 0 <= i < j < |s| ==> s[i] < s[j]
  }

  /** The set of elements of a sequence. */
  ghost function Elems(s: seq<Date>): set<Date> {
    set x | x in s
  }

  /** Every later element of a strictly increasing sequence exceeds its head. */
  lemma HeadBelowTail(s: seq<Date>)
    requires StrictlyIncreasing(s) && s != []
    ensures forall x :: x in s[1..] ==> s[0] < x
  {
    forall x | x in s[1..] ensures s[0] < x {
      var k :| 0 <= k < |s[1..]| && s[1..][k] == x;
      assert s[k + 1] == x;
    }
  }

  /** `sessions_in_range(lo, hi)`: the sessions of `cal` between lo and hi, inclusive. */
  function SessionsInRange(cal: seq<Date>, lo: Date, hi: Date): (r: seq<Date>)
    ensures forall d :: d in r <==> d in cal && lo <= d <= hi
    ensures StrictlyIncreasing(cal) ==> StrictlyIncreasing(r)
  {
    if cal == [] then []
    else if lo <= cal[0] <= hi then
      var rest := SessionsInRange(cal[1..], lo, hi);
      if StrictlyIncreasing(cal) then
        HeadBelowTail(cal);
        assert forall j :: 0 <= j < |rest| ==> cal[0] < rest[j] by {
          forall j | 0 <= j < |rest| ensures cal[0] < rest[j] {
            assert rest[j] in rest;
          }
        }
        [cal[0]] + rest
      else [cal[0]] + rest
    else SessionsInRange(cal[1..], lo, hi)
  }

  /** `get_loc(d)`: the position of d in s, or None where pandas raises KeyError. */
  function IndexOf(s: seq<Date>, d: Date): (r: Option<nat>)
    ensures r.Some? ==> r.value < |s| && s[r.value] == d
    ensures r.None? <==> d !in s
  {
    if s == [] then None
    else if s[0] == d then Some(0)
    else match IndexOf(s[1..], d)
      case Some(k) => Some(k + 1)
      case None => None
  }

  /** In a strictly increasing index, `get_loc` finds the one position holding d. */
  lemma {:induction false} IndexOfIncreasing(s: seq<Date>, k: nat)
    requires StrictlyIncreasing(s) && k < |s|
    ensures IndexOf(s, s[k]) == Some(k)
  {
    if k > 0 {
      assert s[0] < s[k];
      IndexOfIncreasing(s[1..], k - 1);
      assert s[1..][k - 1] == s[k];
    }
  }

  /** Two strictly increasing sequences with the same elements are equal. */
  lemma {:induction false} IncreasingUnique(a: seq<Date>, b: seq<Date>)
    requires StrictlyIncreasing(a) && StrictlyIncreasing(b)
    requires forall x :: x in a <==> x in b
    ensures a == b
  {
    SameElemsSameLength(a, b);
    if |a| > 0 {
      assert a[0] in b;
      var k :| 0 <= k < |b| && b[k] == a[0];
      assert b[0] <= b[k];
      assert b[0] in a;
      var m :| 0 <= m < |a| && a[m] == b[0];
      assert a[0] <= a[m];
      HeadBelowTail(a);
      HeadBelowTail(b);
      forall x ensures x in a[1..] <==> x in b[1..] {
        assert x in a <==> x in a[1..] || x == a[0] by { assert a == [a[0]] + a[1..]; }
        assert x in b <==> x in b[1..] || x == b[0] by { assert b == [b[0]] + b[1..]; }
      }
      IncreasingUnique(a[1..], b[1..]);
      assert a == [a[0]] + a[1..];
      assert b == [b[0]] + b[1..];
    }
  }

  lemma SameElemsSameLength(a: seq<Date>, b: seq<Date>)
    requires StrictlyIncreasing(a) && StrictlyIncreasing(b)
    requires forall x :: x in a <==> x in b
    ensures |a| == |b|
  {
    IncreasingCard(a);
    IncreasingCard(b);
    assert Elems(a) == Elems(b);
  }

  /** A strictly increasing sequence has as many distinct elements as positions. */
  lemma {:induction false} IncreasingCard(a: seq<Date>)
    requires StrictlyIncreasing(a)
    ensures |Elems(a)| == |a|
  {
    if a != [] {
      var t := a[1..];
      IncreasingCard(t);
      assert a == [a[0]] + t;
      assert Elems(a) == {a[0]} + Elems(t);
      HeadBelowTail(a);
      assert a[0] !in Elems(t);
    }
  }

  /** Among strictly increasing sequences, one holding every element of the other
      and of the same length has the same elements. */
  lemma IncreasingSubsetSameLength(a: seq<Date>, b: seq<Date>)
    requires StrictlyIncreasing(a) && StrictlyIncreasing(b)
    requires forall x :: x in a ==> x in b
    requires |a| == |b|
    ensures a == b
  {
    IncreasingCard(a);
    IncreasingCard(b);
    var A, B := Elems(a), Elems(b);
    assert A <= B;
    assert B == A + (B - A);
    assert |B - A| == 0;
    assert B - A == {};
    forall x ensures x in a <==> x in b {
      assert x in a <==> x in A;
      assert x in b <==> x in B;
    }
    IncreasingUnique(a, b);
  }
}
