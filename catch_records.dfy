/**
 * The CPUE records the dashboard receives from `/api/cpue`, the points it hands to its
 * charts, and the stable ascending sort by month date that both transforms end with.
 */
module CatchRecords {
  import opened Wrappers

  /**
   * One monthly CPUE record. `monthDate` is the month date as an integer key, `None`
   * when the field is falsy; `cpue` and `catch` are `None` when the API sent `null`.
   */
  datatype CpueRecord = CpueRecord(
    id: string,
    landingSite: string,
    monthDate: Option<int>,
    cpue: Option<real>,
    catch: Option<real>)

  /** A `{date, cpue, catch}` point of a chart series. */
  datatype CatchPoint = CatchPoint(date: Option<int>, cpue: Option<real>, catch: Option<real>)

  /** Strict order of dates: a missing date comes before every present one. */
  predicate DateBefore(a: Option<int>, b: Option<int>) {
    (a.None? && b.Some?) || (a.Some? && b.Some? && a.value < b.value)
  }

  predicate SortedByDate(ps: seq<CatchPoint>) {
    forall i, j :: 0 <= i < j < |ps| ==> !DateBefore(ps[j].date, ps[i].date)
  }

  predicate DistinctDates(ps: seq<CatchPoint>) {
    forall i, j :: 0 <= i < j < |ps| ==> ps[i].date != ps[j].date
  }

  /** The points dated `d`, in their order: a sort is stable when it keeps this for every `d`. */
  function WithDate(ps: seq<CatchPoint>, d: Option<int>): seq<CatchPoint> {
    if ps == [] then []
    else (if ps[0].date == d then [ps[0]] else []) + WithDate(ps[1..], d)
  }

  /** Inserts `p` in front of the first point not dated before it. */
  function InsertByDate(p: CatchPoint, ps: seq<CatchPoint>): (r: seq<CatchPoint>)
    ensures multiset(r) == multiset(ps) + multiset{p}
  {
    if ps == [] then [p]
    else if DateBefore(ps[0].date, p.date) then
      assert ps == [ps[0]] + ps[1..];
      [ps[0]] + InsertByDate(p, ps[1..])
    else [p] + ps
  }

  lemma WithDateCons(q: CatchPoint, ps: seq<CatchPoint>, d: Option<int>)
    ensures WithDate([q] + ps, d) == (if q.date == d then [q] else []) + WithDate(ps, d)
  {
    assert ([q] + ps)[1..] == ps;
  }

  lemma {:induction false} InsertSorted(p: CatchPoint, ps: seq<CatchPoint>)
    requires SortedByDate(ps)
    ensures SortedByDate(InsertByDate(p, ps))
  {
    if ps != [] && DateBefore(ps[0].date, p.date) {
      InsertSorted(p, ps[1..]);
      var rest := InsertByDate(p, ps[1..]);
      forall q | q in rest ensures !DateBefore(q.date, ps[0].date) {
        assert q in multiset(rest);
      }
    }
  }

  lemma {:induction false} InsertDistinct(p: CatchPoint, ps: seq<CatchPoint>)
    requires DistinctDates(ps)
    requires forall q :: q in ps ==> q.date != p.date
    ensures DistinctDates(InsertByDate(p, ps))
  {
    if ps != [] && DateBefore(ps[0].date, p.date) {
      InsertDistinct(p, ps[1..]);
      var rest := InsertByDate(p, ps[1..]);
      forall q | q in rest ensures q.date != ps[0].date {
        assert q in multiset(rest);
      }
    }
  }

  /** Insertion keeps every date's points in order; `p` goes before the points of its own date. */
  lemma {:induction false} InsertWithDate(p: CatchPoint, ps: seq<CatchPoint>, d: Option<int>)
    ensures WithDate(InsertByDate(p, ps), d) == (if p.date == d then [p] else []) + WithDate(ps, d)
  {
    if ps == [] {
      WithDateCons(p, [], d);
    } else if DateBefore(ps[0].date, p.date) {
      InsertWithDate(p, ps[1..], d);
      InsertWithDatePast(p, ps, d);
    } else {
      WithDateCons(p, ps, d);
    }
  }

  /** The step of `InsertWithDate` where `p` moves past the first point. */
  lemma InsertWithDatePast(p: CatchPoint, ps: seq<CatchPoint>, d: Option<int>)
    requires ps != [] && DateBefore(ps[0].date, p.date)
    requires WithDate(InsertByDate(p, ps[1..]), d) == (if p.date == d then [p] else []) + WithDate(ps[1..], d)
    ensures WithDate(InsertByDate(p, ps), d) == (if p.date == d then [p] else []) + WithDate(ps, d)
  {
    var rest := InsertByDate(p, ps[1..]);
    assert InsertByDate(p, ps) == [ps[0]] + rest;
    PrependPast(ps[0], rest, ps[1..], if p.date == d then [p] else [], d);
    assert [ps[0]] + ps[1..] == ps;
  }

  /** A point of another date than the moved ones can be put in front of both sides. */
  lemma PrependPast(q: CatchPoint, rest: seq<CatchPoint>, tail: seq<CatchPoint>, moved: seq<CatchPoint>, d: Option<int>)
    requires WithDate(rest, d) == moved + WithDate(tail, d)
    requires q.date == d ==> moved == []
    ensures WithDate([q] + rest, d) == moved + WithDate([q] + tail, d)
  {
    WithDateCons(q, rest, d);
    WithDateCons(q, tail, d);
    if q.date == d {
      assert moved + WithDate([q] + tail, d) == WithDate([q] + tail, d);
    } else {
      assert WithDate([q] + rest, d) == WithDate(rest, d);
    }
  }

  /**
   * `Array.prototype.sort` with the comparator `new Date(a.date) - new Date(b.date)`:
   * ascending by date; `SortByDateStable` shows that equal dates keep their input order.
   */
  function SortByDate(ps: seq<CatchPoint>): (r: seq<CatchPoint>)
    ensures SortedByDate(r)
    ensures multiset(r) == multiset(ps)
  {
    if ps == [] then []
    else
      var rest := SortByDate(ps[1..]);
      assert ps == [ps[0]] + ps[1..];
      InsertSorted(ps[0], rest);
      InsertByDate(ps[0], rest)
  }

  /** The sort is stable: the points of each date come out in their input order. */
  lemma {:induction false} SortByDateStable(ps: seq<CatchPoint>, d: Option<int>)
    ensures WithDate(SortByDate(ps), d) == WithDate(ps, d)
  {
    if ps != [] {
      SortByDateStable(ps[1..], d);
      InsertWithDate(ps[0], SortByDate(ps[1..]), d);
      WithDateCons(ps[0], ps[1..], d);
      assert ps == [ps[0]] + ps[1..];
    }
  }

  /** Sorting keeps pairwise different dates pairwise different. */
  lemma {:induction false} SortByDateDistinct(ps: seq<CatchPoint>)
    requires DistinctDates(ps)
    ensures DistinctDates(SortByDate(ps))
  {
    if ps != [] {
      var rest := SortByDate(ps[1..]);
      SortByDateDistinct(ps[1..]);
      assert ps == [ps[0]] + ps[1..];
      forall q | q in rest ensures q.date != ps[0].date {
        assert q in multiset(rest);
        assert q in ps[1..];
      }
      InsertDistinct(ps[0], rest);
    }
  }

  /** A sorted sequence whose dates are pairwise different is strictly increasing by date. */
  lemma SortedDistinctIsStrict(ps: seq<CatchPoint>, i: int, j: int)
    requires SortedByDate(ps) && DistinctDates(ps)
    requires 0 <= i < j < |ps|
    ensures DateBefore(ps[i].date, ps[j].date)
  {
  }

  /**
   * Two sequences that are both sorted by date and agree on the points of every date
   * are equal: sortedness and stability determine the result of the sort.
   */
  lemma {:induction false} SortSpecIsUnique(a: seq<CatchPoint>, b: seq<CatchPoint>)
    requires SortedByDate(a) && SortedByDate(b)
    requires forall d :: WithDate(a, d) == WithDate(b, d)
    ensures a == b
  {
    if a == [] && b != [] {
      var w := WithDate(a, b[0].date);
      assert false;
    } else if a != [] && b == [] {
      var w := WithDate(b, a[0].date);
      assert false;
    } else if a != [] {
      // Both first elements carry the least date of their sequence.
      LeastDateFirst(a, b[0].date, b);
      LeastDateFirst(b, a[0].date, a);
      assert a[0].date == b[0].date;
      var d0 := a[0].date;
      assert WithDate(a, d0)[0] == a[0];
      assert WithDate(b, d0)[0] == b[0];
      assert a[0] == b[0];
      forall d ensures WithDate(a[1..], d) == WithDate(b[1..], d) {
        WithDateCons(a[0], a[1..], d);
        WithDateCons(b[0], b[1..], d);
        assert a == [a[0]] + a[1..] && b == [b[0]] + b[1..];
        var x := if a[0].date == d then [a[0]] else [];
        assert WithDate(a[1..], d) == (x + WithDate(a[1..], d))[|x|..];
        assert WithDate(b[1..], d) == (x + WithDate(b[1..], d))[|x|..];
      }
      SortSpecIsUnique(a[1..], b[1..]);
      assert a == [a[0]] + a[1..] && b == [b[0]] + b[1..];
    }
  }

  /** If `s` contains a point dated `d`, then so does `t`'s twin `a`, and `a`'s first date is not after `d`. */
  lemma LeastDateFirst(a: seq<CatchPoint>, d: Option<int>, b: seq<CatchPoint>)
    requires SortedByDate(a) && a != [] && b != [] && b[0].date == d
    requires forall e :: WithDate(a, e) == WithDate(b, e)
    ensures !DateBefore(d, a[0].date)
  {
    assert WithDate(b, d) != [];
    var k := WithDateWitness(a, d);
    assert a[k].date == d;
  }

  /** An index of a point dated `d`, when there is one. */
  lemma {:induction false} WithDateWitness(ps: seq<CatchPoint>, d: Option<int>) returns (k: nat)
    requires WithDate(ps, d) != []
    ensures k < |ps| && ps[k].date == d
  {
    if ps[0].date == d {
      k := 0;
    } else {
      var k' := WithDateWitness(ps[1..], d);
      k := k' + 1;
    }
  }

  /** One record as the point `{date: month_date, cpue, catch}`. */
  function ToPoint(r: CpueRecord): CatchPoint {
    CatchPoint(r.monthDate, r.cpue, r.catch)
  }

  /** The points of the records of one landing site, in record order, before sorting. */
  function SitePoints(data: seq<CpueRecord>, site: string): (r: seq<CatchPoint>)
    ensures |r| <= |data|
    ensures forall p :: p in r <==> exists i :: 0 <= i < |data| && data[i].landingSite == site && p == ToPoint(data[i])
  {
    if data == [] then []
    else
      var rest := SitePoints(data[1..], site);
      assert forall i :: 0 < i < |data| ==> data[i] == data[1..][i - 1];
      assert forall p :: p in rest <==> exists i :: 1 <= i < |data| && data[i].landingSite == site && p == ToPoint(data[i]) by {
        forall p | p in rest ensures exists i :: 1 <= i < |data| && data[i].landingSite == site && p == ToPoint(data[i]) {
          var i' :| 0 <= i' < |data[1..]| && data[1..][i'].landingSite == site && p == ToPoint(data[1..][i']);
          assert data[i' + 1] == data[1..][i'];
        }
      }
      if data[0].landingSite == site then [ToPoint(data[0])] + rest else rest
  }

  /** One record gives its point exactly when it belongs to the site. */
  lemma SitePointsSingle(rec: CpueRecord, site: string)
    ensures SitePoints([rec], site) == if rec.landingSite == site then [ToPoint(rec)] else []
  {
    assert [rec][1..] == [];
  }

  /** The filter and the map work record by record: they distribute over concatenation. */
  lemma {:induction false} SitePointsAppend(a: seq<CpueRecord>, b: seq<CpueRecord>, site: string)
    ensures SitePoints(a + b, site) == SitePoints(a, site) + SitePoints(b, site)
    decreases |a|
  {
    if a == [] {
      assert a + b == b;
    } else {
      assert (a + b)[0] == a[0] && (a + b)[1..] == a[1..] + b;
      SitePointsAppend(a[1..], b, site);
    }
  }

  /**
   * `processSingleSiteData`: the points of the records at `site`, values unchanged,
   * stably sorted ascending by date.
   */
  function SingleSiteSeries(data: seq<CpueRecord>, site: string): (r: seq<CatchPoint>)
    ensures SortedByDate(r)
    ensures |r| == |SitePoints(data, site)|
    ensures forall p :: p in r <==> exists i :: 0 <= i < |data| && data[i].landingSite == site && p == ToPoint(data[i])
    ensures forall d :: WithDate(r, d) == WithDate(SitePoints(data, site), d)
  {
    var unsorted := SitePoints(data, site);
    var r := SortByDate(unsorted);
    assert |r| == |multiset(r)| == |multiset(unsorted)| == |unsorted|;
    assert forall p :: p in r <==> p in unsorted by {
      forall p ensures p in r <==> p in unsorted {
        assert p in r <==> p in multiset(r);
        assert p in unsorted <==> p in multiset(unsorted);
      }
    }
    assert forall d :: WithDate(r, d) == WithDate(unsorted, d) by {
      forall d ensures WithDate(r, d) == WithDate(unsorted, d) {
        SortByDateStable(unsorted, d);
      }
    }
    r
  }
}
