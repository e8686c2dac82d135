/**
 * The final ordering of the deviation records: `Array.prototype.sort` with the
 * comparator `getTime(a.date) - getTime(b.date)`. The sort is stable, so records
 * with the same date keep the order in which they were pushed.
 */
module DateSort {
  import opened EmissionTypes

  /** `new Date(d.date).getTime()`: the sort key. */
  function DateKey(d: QuarterlyDeviation): (t: int)
  {
    d.date.millis
  }

  predicate SortedByDate(s: seq<QuarterlyDeviation>)
  {
    forall i, j :: 0 <= i < j < |s| ==> DateKey(s[i]) <= DateKey(s[j])
  }

  /** The records dated `t`, in their order in `s`. */
  function WithDate(s: seq<QuarterlyDeviation>, t: int): (r: seq<QuarterlyDeviation>)
    ensures |r| <= |s|
    ensures forall x :: x in r ==> x in s && DateKey(x) == t
  {
    if s == [] then []
    else
      var init, last := s[..|s| - 1], s[|s| - 1];
      if DateKey(last) == t then WithDate(init, t) + [last] else WithDate(init, t)
  }

  /** Places `x` after every record of `s` dated no later than `x`. */
  function InsertByDate(s: seq<QuarterlyDeviation>, x: QuarterlyDeviation): (r: seq<QuarterlyDeviation>)
  {
    if s == [] then [x]
    else
      var init, last := s[..|s| - 1], s[|s| - 1];
      if DateKey(last) <= DateKey(x) then s + [x] else InsertByDate(init, x) + [last]
  }

  /**
   * The stable sort by date: each record in turn is placed after its equals. The
   * result is ordered by date and holds the same records.
   */
  function SortByDate(s: seq<QuarterlyDeviation>): (r: seq<QuarterlyDeviation>)
    ensures SortedByDate(r)
    ensures multiset(r) == multiset(s)
  {
    if s == [] then []
    else
      var init, last := s[..|s| - 1], s[|s| - 1];
      assert s == init + [last];
      InsertByDateSorted(SortByDate(init), last);
      InsertByDateMultiset(SortByDate(init), last);
      InsertByDate(SortByDate(init), last)
  }

  lemma WithDateSnoc(s: seq<QuarterlyDeviation>, x: QuarterlyDeviation, t: int)
    ensures WithDate(s + [x], t) == if DateKey(x) == t then WithDate(s, t) + [x] else WithDate(s, t)
  {
    assert (s + [x])[..|s|] == s;
  }

  /** Inserting adds exactly `x`. */
  lemma {:induction false} InsertByDateMultiset(s: seq<QuarterlyDeviation>, x: QuarterlyDeviation)
    ensures multiset(InsertByDate(s, x)) == multiset(s) + multiset{x}
  {
    if s != [] {
      var init, last := s[..|s| - 1], s[|s| - 1];
      assert s == init + [last];
      if DateKey(last) > DateKey(x) {
        InsertByDateMultiset(init, x);
      }
    }
  }

  /** Inserting keeps a date-ordered sequence ordered. */
  lemma {:induction false} InsertByDateSorted(s: seq<QuarterlyDeviation>, x: QuarterlyDeviation)
    requires SortedByDate(s)
    ensures SortedByDate(InsertByDate(s, x))
  {
    if s != [] {
      var init, last := s[..|s| - 1], s[|s| - 1];
      assert s == init + [last];
      if DateKey(last) > DateKey(x) {
        var ins := InsertByDate(init, x);
        InsertByDateSorted(init, x);
        InsertByDateMultiset(init, x);
        forall r | r in ins ensures DateKey(r) <= DateKey(last) {
          assert r in multiset(ins);
          if r != x {
            assert r in multiset(init);
            var i :| 0 <= i < |init| && init[i] == r;
            assert s[i] == r;
          }
        }
        forall i, j | 0 <= i < j < |ins + [last]|
          ensures DateKey((ins + [last])[i]) <= DateKey((ins + [last])[j])
        {
          if j == |ins| {
            assert (ins + [last])[i] in ins;
          }
        }
      }
    }
  }

  /** Inserting puts `x` after every record with its own date: the step that makes the sort stable. */
  lemma {:induction false} InsertByDateStable(s: seq<QuarterlyDeviation>, x: QuarterlyDeviation, t: int)
    ensures WithDate(InsertByDate(s, x), t)
         == if DateKey(x) == t then WithDate(s, t) + [x] else WithDate(s, t)
  {
    if s == [] {
      assert InsertByDate(s, x) == [] + [x];
      WithDateSnoc([], x, t);
    } else {
      var init, last := s[..|s| - 1], s[|s| - 1];
      assert s == init + [last];
      if DateKey(last) <= DateKey(x) {
        WithDateSnoc(s, x, t);
      } else {
        InsertByDateStable(init, x, t);
        WithDateSnoc(InsertByDate(init, x), last, t);
        WithDateSnoc(init, last, t);
      }
    }
  }

  /** The sort is stable: the records of any one date appear in their input order. */
  lemma {:induction false} SortByDateStable(s: seq<QuarterlyDeviation>)
    ensures forall t :: WithDate(SortByDate(s), t) == WithDate(s, t)
  {
    if s != [] {
      var init, last := s[..|s| - 1], s[|s| - 1];
      assert s == init + [last];
      SortByDateStable(init);
      forall t ensures WithDate(SortByDate(s), t) == WithDate(s, t) {
        InsertByDateStable(SortByDate(init), last, t);
        WithDateSnoc(init, last, t);
      }
    }
  }
}
