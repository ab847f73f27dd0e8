/**
 * Date-ordered listings. Both the store's `sort({date: 1})` and the
 * `Array.prototype.sort` by `localeCompare` on dates are modelled by
 * SortByDate, an insertion sort on the date key.
 */
module Listing {
  import opened Dates
  import opened Records

  /** The set of days a listing mentions. */
  function DatesOf(s: seq<DayEntry>): set<Date> {
    set e | e in s :: e.date
  }

  /** No day appears twice. */
  predicate DistinctDates(s: seq<DayEntry>) {
    forall i, j :: 0 <= i < j < |s| ==> s[i].date != s[j].date
  }

  /** Strictly ascending by date. */
  predicate Ascending(s: seq<DayEntry>) {
    forall i, j :: 0 <= i < j < |s| ==> Before(s[i].date, s[j].date)
  }

  /** A strictly ascending listing holds one entry per day. */
  lemma AscendingIsDistinct(s: seq<DayEntry>)
    requires Ascending(s)
    ensures DistinctDates(s)
  {
    forall i, j | 0 <= i < j < |s|
      ensures s[i].date != s[j].date
    {
      BeforeIrreflexive(s[i].date);
    }
  }

  /** A listing with one entry per day has as many entries as days. */
  lemma {:induction false} DistinctDatesCount(s: seq<DayEntry>)
    requires DistinctDates(s)
    ensures |DatesOf(s)| == |s|
  {
    if s != [] {
      var t := s[1..];
      assert s == [s[0]] + t;
      assert DistinctDates(t);
      DistinctDatesCount(t);
      assert DatesOf(s) == {s[0].date} + DatesOf(t);
      assert s[0].date !in DatesOf(t) by {
        forall e | e in t ensures e.date != s[0].date {
          var k :| 0 <= k < |t| && t[k] == e;
          assert s[k + 1] == e;
        }
      }
    }
  }

  /** Appending an entry for a new day keeps the days distinct. */
  lemma AppendFresh(s: seq<DayEntry>, e: DayEntry)
    requires DistinctDates(s)
    requires e.date !in DatesOf(s)
    ensures DistinctDates(s + [e])
    ensures DatesOf(s + [e]) == DatesOf(s) + {e.date}
  {
    var r := s + [e];
    forall i, j | 0 <= i < j < |r|
      ensures r[i].date != r[j].date
    {
      if j == |s| {
        assert r[i] in s;
      }
    }
    assert forall x :: x in r <==> x in s || x == e;
  }

  /** An entry that precedes every entry of an ascending listing may lead it. */
  lemma PrependAscending(h: DayEntry, t: seq<DayEntry>)
    requires Ascending(t)
    requires forall x | x in t :: Before(h.date, x.date)
    ensures Ascending([h] + t)
  {
    var r := [h] + t;
    forall i, j | 0 <= i < j < |r|
      ensures Before(r[i].date, r[j].date)
    {
      if i == 0 {
        assert r[j] in t;
      } else {
        assert r[i] == t[i - 1] && r[j] == t[j - 1];
      }
    }
  }

  /** An entry before the head of an ascending listing may lead it. */
  lemma BeforeHeadLeads(e: DayEntry, s: seq<DayEntry>)
    requires Ascending(s) && s != []
    requires Before(e.date, s[0].date)
    ensures Ascending([e] + s)
  {
    forall x | x in s ensures Before(e.date, x.date) {
      var k :| 0 <= k < |s| && s[k] == x;
      if k > 0 {
        BeforeTransitive(e.date, s[0].date, x.date);
      }
    }
    PrependAscending(e, s);
  }

  /**
   * The head of an ascending listing precedes everything in the insertion
   * of a later entry into its tail.
   */
  lemma HeadLeadsInsertion(e: DayEntry, s: seq<DayEntry>, rest: seq<DayEntry>)
    requires Ascending(s) && s != []
    requires Before(s[0].date, e.date)
    requires multiset(rest) == multiset(s[1..]) + multiset{e}
    ensures forall x | x in rest :: Before(s[0].date, x.date)
  {
    forall x | x in rest ensures Before(s[0].date, x.date) {
      assert x in multiset(rest);
      if x != e {
        assert x in s[1..];
        var k :| 0 <= k < |s[1..]| && s[1..][k] == x;
        assert s[k + 1] == x;
      }
    }
  }

  /** Insert `e` into an ascending listing that does not yet mention its day. */
  function InsertByDate(e: DayEntry, s: seq<DayEntry>): (r: seq<DayEntry>)
    requires Ascending(s)
    requires e.date !in DatesOf(s)
    ensures Ascending(r)
    ensures multiset(r) == multiset(s) + multiset{e}
    decreases |s|
  {
    if s == [] then
      [e]
    else if Before(e.date, s[0].date) then
      BeforeHeadLeads(e, s);
      [e] + s
    else
      assert s == [s[0]] + s[1..];
      assert Before(s[0].date, e.date) by {
        assert e.date != s[0].date;
        BeforeTotal(e.date, s[0].date);
      }
      var rest := InsertByDate(e, s[1..]);
      HeadLeadsInsertion(e, s, rest);
      PrependAscending(s[0], rest);
      [s[0]] + rest
  }

  /**
   * Sort a listing whose days are distinct into ascending date order. The
   * result is a permutation of the input.
   */
  function SortByDate(s: seq<DayEntry>): (r: seq<DayEntry>)
    requires DistinctDates(s)
    ensures Ascending(r)
    ensures multiset(r) == multiset(s)
  {
    if s == [] then
      []
    else
      assert s == [s[0]] + s[1..];
      var t := SortByDate(s[1..]);
      assert s[0].date !in DatesOf(t) by {
        forall x | x in t ensures x.date != s[0].date {
          assert x in multiset(t);
          var k :| 0 <= k < |s[1..]| && s[1..][k] == x;
          assert s[k + 1] == x;
        }
      }
      InsertByDate(s[0], t)
  }

  /** Sorting keeps exactly the entries, hence the days, of its input. */
  lemma SortKeepsEntries(s: seq<DayEntry>)
    requires DistinctDates(s)
    ensures forall x :: x in SortByDate(s) <==> x in s
    ensures DatesOf(SortByDate(s)) == DatesOf(s)
    ensures |SortByDate(s)| == |s|
  {
    var r := SortByDate(s);
    assert forall x :: x in r <==> x in multiset(r);
    assert forall x :: x in s <==> x in multiset(s);
    assert |r| == |multiset(r)|;
  }
}
