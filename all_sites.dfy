/**
 * `processAllSitesData`: the records of every landing site folded into one series with
 * one point per month date. The fold is a loop over the records that updates a map of
 * running totals, as the source's `forEach` does.
 */
module AllSites {
  import opened Wrappers
  import opened CatchRecords

  /** Sum of a sequence of reals, taken from the left. */
  function Sum(xs: seq<real>): real {
    if xs == [] then 0.0 else Sum(xs[..|xs| - 1]) + xs[|xs| - 1]
  }

  /** The non-null `cpue` values of the records dated `d`, in record order. */
  function CpueValues(data: seq<CpueRecord>, d: int): seq<real> {
    if data == [] then []
    else
      var r := data[|data| - 1];
      CpueValues(data[..|data| - 1], d) + (if r.monthDate == Some(d) && r.cpue.Some? then [r.cpue.value] else [])
  }

  /** The non-null `catch` values of the records dated `d`, in record order. */
  function CatchValues(data: seq<CpueRecord>, d: int): seq<real> {
    if data == [] then []
    else
      var r := data[|data| - 1];
      CatchValues(data[..|data| - 1], d) + (if r.monthDate == Some(d) && r.catch.Some? then [r.catch.value] else [])
  }

  /** How many records, null values or not, are dated `d`. */
  function RecordsAt(data: seq<CpueRecord>, d: int): nat {
    if data == [] then 0
    else RecordsAt(data[..|data| - 1], d) + (if data[|data| - 1].monthDate == Some(d) then 1 else 0)
  }

  /** The month dates that occur in `data` (a record with a falsy month date has none). */
  function DatesOf(data: seq<CpueRecord>): set<int> {
    if data == [] then {}
    else
      var r := data[|data| - 1];
      DatesOf(data[..|data| - 1]) + (if r.monthDate.Some? then {r.monthDate.value} else {})
  }

  /** The all-sites `cpue` at `d`: the mean of the non-null values, `null` when there are none. */
  function MeanCpue(data: seq<CpueRecord>, d: int): Option<real> {
    var vs := CpueValues(data, d);
    if |vs| > 0 then Some(Sum(vs) / (|vs| as real)) else None
  }

  /** The all-sites `catch` at `d`: the sum of the non-null values over the number of ALL records at `d`. */
  function MeanCatch(data: seq<CpueRecord>, d: int): Option<real> {
    var n := RecordsAt(data, d);
    if n > 0 then Some(Sum(CatchValues(data, d)) / (n as real)) else None
  }

  function DatesOfPoints(rows: seq<CatchPoint>): set<Option<int>> {
    set p | p in rows :: p.date
  }

  /** Every point is dated and the dates strictly increase. */
  ghost predicate StrictlyDated(rows: seq<CatchPoint>) {
    && (forall i :: 0 <= i < |rows| ==> rows[i].date.Some?)
    && (forall i, j :: 0 <= i < j < |rows| ==> rows[i].date.value < rows[j].date.value)
  }

  /** The point is the all-sites row of its own date. */
  ghost predicate RowFor(data: seq<CpueRecord>, p: CatchPoint) {
    p.date.Some? && p.cpue == MeanCpue(data, p.date.value) && p.catch == MeanCatch(data, p.date.value)
  }

  /**
   * What `processAllSitesData(data)` returns: dates strictly increasing, exactly the
   * month dates of `data`, and at each date the averages above.
   */
  ghost predicate IsAllSitesSeries(data: seq<CpueRecord>, rows: seq<CatchPoint>) {
    && StrictlyDated(rows)
    && (forall i :: 0 <= i < |rows| ==> RowFor(data, rows[i]))
    && (forall d :: d in DatesOf(data) <==> Some(d) in DatesOfPoints(rows))
  }

  /** The accumulator object the source keeps per month date. */
  datatype Totals = Totals(cpue: real, catch: real, count: nat, validCpueCount: nat)

  const NoTotals := Totals(0.0, 0.0, 0, 0)

  /** The totals the loop has accumulated for `d` after reading `data`. */
  function TotalsOf(data: seq<CpueRecord>, d: int): Totals {
    Totals(Sum(CpueValues(data, d)), Sum(CatchValues(data, d)), RecordsAt(data, d), |CpueValues(data, d)|)
  }

  /** One step of the `forEach` body on the totals of the record's own date. */
  function Accumulate(t: Totals, r: CpueRecord): Totals {
    Totals(
      if r.cpue.Some? then t.cpue + r.cpue.value else t.cpue,
      if r.catch.Some? then t.catch + r.catch.value else t.catch,
      t.count + 1,
      if r.cpue.Some? then t.validCpueCount + 1 else t.validCpueCount)
  }

  /** The `.map(...)` that turns one accumulator into an output point. */
  function Finish(d: int, t: Totals): CatchPoint {
    CatchPoint(
      Some(d),
      if t.validCpueCount > 0 then Some(t.cpue / (t.validCpueCount as real)) else None,
      if t.count > 0 then Some(t.catch / (t.count as real)) else None)
  }

  lemma SumAppend(xs: seq<real>, x: real)
    ensures Sum(xs + [x]) == Sum(xs) + x
  {
    assert (xs + [x])[..|xs|] == xs;
  }

  lemma TotalsOfStep(data: seq<CpueRecord>, i: nat, d: int)
    requires i < |data|
    ensures TotalsOf(data[..i + 1], d) ==
      if data[i].monthDate == Some(d) then Accumulate(TotalsOf(data[..i], d), data[i]) else TotalsOf(data[..i], d)
  {
    var s := data[..i + 1];
    assert s[..|s| - 1] == data[..i] && s[|s| - 1] == data[i];
    var r := data[i];
    var cv, kv := CpueValues(data[..i], d), CatchValues(data[..i], d);
    if r.monthDate == Some(d) && r.cpue.Some? {
      assert CpueValues(s, d) == cv + [r.cpue.value];
      SumAppend(cv, r.cpue.value);
    } else {
      assert CpueValues(s, d) == cv + [] == cv;
    }
    if r.monthDate == Some(d) && r.catch.Some? {
      assert CatchValues(s, d) == kv + [r.catch.value];
      SumAppend(kv, r.catch.value);
    } else {
      assert CatchValues(s, d) == kv + [] == kv;
    }
  }

  lemma {:induction false} TotalsOfAbsent(data: seq<CpueRecord>, d: int)
    requires d !in DatesOf(data)
    ensures CpueValues(data, d) == [] && CatchValues(data, d) == [] && RecordsAt(data, d) == 0
    ensures TotalsOf(data, d) == NoTotals
  {
    if data != [] {
      var init := data[..|data| - 1];
      TotalsOfAbsent(init, d);
      assert CpueValues(data, d) == CpueValues(init, d) + [];
      assert CatchValues(data, d) == CatchValues(init, d) + [];
    }
  }

  lemma DatesOfStep(data: seq<CpueRecord>, i: nat)
    requires i < |data|
    ensures DatesOf(data[..i + 1]) ==
      DatesOf(data[..i]) + (if data[i].monthDate.Some? then {data[i].monthDate.value} else {})
  {
    assert data[..i + 1][..i] == data[..i];
  }

  /** The map of totals after the `forEach` body has read `data[i]`. */
  function AddRecord(combined: map<int, Totals>, r: CpueRecord): map<int, Totals> {
    if r.monthDate.Some? then
      var d := r.monthDate.value;
      combined[d := Accumulate(if d in combined then combined[d] else NoTotals, r)]
    else combined
  }

  lemma CombinedStep(data: seq<CpueRecord>, i: nat, before: map<int, Totals>, after: map<int, Totals>)
    requires i < |data|
    requires before.Keys == DatesOf(data[..i])
    requires forall d :: d in before ==> before[d] == TotalsOf(data[..i], d)
    requires after == AddRecord(before, data[i])
    ensures after.Keys == DatesOf(data[..i + 1])
    ensures forall d :: d in after ==> after[d] == TotalsOf(data[..i + 1], d)
  {
    DatesOfStep(data, i);
    var r := data[i];
    forall e | e in after ensures after[e] == TotalsOf(data[..i + 1], e) {
      TotalsOfStep(data, i, e);
      if r.monthDate == Some(e) {
        if e !in before {
          TotalsOfAbsent(data[..i], e);
        }
      }
    }
  }

  /** The month dates of `data` in the order of their first occurrence. */
  function FirstOccurrences(data: seq<CpueRecord>): seq<int> {
    if data == [] then []
    else
      var before := FirstOccurrences(data[..|data| - 1]);
      var r := data[|data| - 1];
      before + (if r.monthDate.Some? && r.monthDate.value !in before then [r.monthDate.value] else [])
  }

  /** One more record adds its date at the end when it is new. */
  lemma FirstOccurrencesStep(data: seq<CpueRecord>, i: int)
    requires 0 <= i < |data|
    ensures FirstOccurrences(data[..i + 1]) == FirstOccurrences(data[..i]) +
      (if data[i].monthDate.Some? && data[i].monthDate.value !in FirstOccurrences(data[..i]) then [data[i].monthDate.value] else [])
  {
    assert data[..i + 1][..i] == data[..i];
  }

  /** The first occurrences are exactly the month dates of `data`. */
  lemma {:induction false} FirstOccurrencesMembers(data: seq<CpueRecord>)
    ensures forall d :: d in FirstOccurrences(data) <==> d in DatesOf(data)
  {
    if data != [] {
      FirstOccurrencesMembers(data[..|data| - 1]);
    }
  }

  /** No month date is listed twice. */
  lemma {:induction false} FirstOccurrencesDistinct(data: seq<CpueRecord>)
    ensures forall a, b :: 0 <= a < b < |FirstOccurrences(data)| ==> FirstOccurrences(data)[a] != FirstOccurrences(data)[b]
  {
    if data != [] {
      var before := FirstOccurrences(data[..|data| - 1]);
      FirstOccurrencesDistinct(data[..|data| - 1]);
      var all := FirstOccurrences(data);
      forall a, b | 0 <= a < b < |all| ensures all[a] != all[b] {
        if b >= |before| {
          assert all[a] == before[a];
        } else {
          assert all[a] == before[a] && all[b] == before[b];
        }
      }
    }
  }

  /** The body of the `forEach` callback for one record: `has`, `set` of fresh totals, then the updates. */
  method AddToCombined(combined: map<int, Totals>, order: seq<int>, r: CpueRecord)
    returns (combined': map<int, Totals>, order': seq<int>)
    ensures combined' == AddRecord(combined, r)
    ensures order' == order + (if r.monthDate.Some? && r.monthDate.value !in combined then [r.monthDate.value] else [])
  {
    combined' := combined;
    order' := order;
    if r.monthDate.Some? {
      var d := r.monthDate.value;
      if d !in combined' {
        combined' := combined'[d := NoTotals];
        order' := order' + [d];
      }
      combined' := combined'[d := Accumulate(combined'[d], r)];
    }
  }

  /** The `forEach` over the records: the map of totals per month date and its keys in insertion order. */
  method CombineByDate(data: seq<CpueRecord>) returns (combined: map<int, Totals>, order: seq<int>)
    ensures combined.Keys == DatesOf(data)
    ensures forall d :: d in combined ==> combined[d] == TotalsOf(data, d)
    ensures forall d :: d in combined <==> d in order
    ensures forall a, b :: 0 <= a < b < |order| ==> order[a] != order[b]
    ensures order == FirstOccurrences(data)
  {
    combined := map[];
    order := [];
    var i := 0;
    while i < |data|
      invariant 0 <= i <= |data|
      invariant combined.Keys == DatesOf(data[..i])
      invariant forall d :: d in combined ==> combined[d] == TotalsOf(data[..i], d)
      invariant order == FirstOccurrences(data[..i])
    {
      FirstOccurrencesStep(data, i);
      FirstOccurrencesMembers(data[..i]);
      ghost var before := combined;
      combined, order := AddToCombined(combined, order, data[i]);
      CombinedStep(data, i, before, combined);
      i := i + 1;
    }
    assert data[..i] == data;
    FirstOccurrencesMembers(data);
    FirstOccurrencesDistinct(data);
  }

  /** The map's values, in insertion order, each turned into its finished point. */
  method FinishAll(combined: map<int, Totals>, order: seq<int>) returns (points: seq<CatchPoint>)
    requires forall j :: 0 <= j < |order| ==> order[j] in combined
    ensures |points| == |order|
    ensures forall j :: 0 <= j < |order| ==> points[j] == Finish(order[j], combined[order[j]])
  {
    points := [];
    var k := 0;
    while k < |order|
      invariant 0 <= k <= |order|
      invariant |points| == k
      invariant forall j :: 0 <= j < k ==> points[j] == Finish(order[j], combined[order[j]])
    {
      points := points + [Finish(order[k], combined[order[k]])];
      k := k + 1;
    }
  }

  /** `processAllSitesData`. */
  method AggregateAllSites(data: seq<CpueRecord>) returns (rows: seq<CatchPoint>)
    ensures IsAllSitesSeries(data, rows)
  {
    var combined, order := CombineByDate(data);
    assert forall j :: 0 <= j < |order| ==> order[j] in order;
    var points := FinishAll(combined, order);
    rows := SortByDate(points);
    AllSitesRows(data, combined, order, points, rows);
  }

  lemma FinishIsRow(data: seq<CpueRecord>, d: int, t: Totals)
    requires t == TotalsOf(data, d)
    ensures RowFor(data, Finish(d, t))
  {
  }

  /** The points built from the finished totals, once sorted, meet `IsAllSitesSeries`. */
  lemma AllSitesRows(data: seq<CpueRecord>, combined: map<int, Totals>, order: seq<int>,
                     points: seq<CatchPoint>, rows: seq<CatchPoint>)
    requires combined.Keys == DatesOf(data)
    requires forall d :: d in combined ==> combined[d] == TotalsOf(data, d)
    requires forall d :: d in combined <==> d in order
    requires forall a, b :: 0 <= a < b < |order| ==> order[a] != order[b]
    requires |points| == |order|
    requires forall j :: 0 <= j < |order| ==> points[j] == Finish(order[j], combined[order[j]])
    requires rows == SortByDate(points)
    ensures IsAllSitesSeries(data, rows)
  {
    assert DistinctDates(points) by {
      forall a, b | 0 <= a < b < |points| ensures points[a].date != points[b].date {
        assert points[a].date == Some(order[a]) && points[b].date == Some(order[b]);
      }
    }
    SortByDateDistinct(points);
    assert forall p :: p in rows <==> p in points by {
      forall p ensures p in rows <==> p in points {
        assert p in rows <==> p in multiset(rows);
        assert p in points <==> p in multiset(points);
      }
    }
    assert forall p :: p in points ==> RowFor(data, p) by {
      forall p | p in points ensures RowFor(data, p) {
        var j :| 0 <= j < |points| && points[j] == p;
        assert order[j] in combined;
        FinishIsRow(data, order[j], combined[order[j]]);
      }
    }
    forall i | 0 <= i < |rows| ensures RowFor(data, rows[i]) {
      assert rows[i] in rows;
    }
    forall i, j | 0 <= i < j < |rows| ensures rows[i].date.value < rows[j].date.value {
      assert rows[i] in rows && rows[j] in rows;
      SortedDistinctIsStrict(rows, i, j);
    }
    forall d ensures d in DatesOf(data) <==> Some(d) in DatesOfPoints(rows) {
      if d in DatesOf(data) {
        var j :| 0 <= j < |order| && order[j] == d;
        assert points[j] in rows;
      }
      if Some(d) in DatesOfPoints(rows) {
        var p :| p in rows && p.date == Some(d);
        var j :| 0 <= j < |points| && points[j] == p;
        assert order[j] in combined;
      }
    }
  }

  /** A month date is in `DatesOf` exactly when some record carries it. */
  lemma {:induction false} DatesOfMembers(data: seq<CpueRecord>, d: int)
    ensures d in DatesOf(data) <==> exists i :: 0 <= i < |data| && data[i].monthDate == Some(d)
  {
    if data != [] {
      var init := data[..|data| - 1];
      DatesOfMembers(init, d);
      if d in DatesOf(init) {
        var i :| 0 <= i < |init| && init[i].monthDate == Some(d);
        assert data[i] == init[i];
      }
      if exists i :: 0 <= i < |data| && data[i].monthDate == Some(d) {
        var i :| 0 <= i < |data| && data[i].monthDate == Some(d);
        if i < |data| - 1 {
          assert init[i] == data[i];
        }
      }
    }
  }

  /** Every month date present has at least one record. */
  lemma {:induction false} DatedRecordsCounted(data: seq<CpueRecord>, d: int)
    requires d in DatesOf(data)
    ensures RecordsAt(data, d) > 0
  {
    var init := data[..|data| - 1];
    if data[|data| - 1].monthDate != Some(d) {
      DatedRecordsCounted(init, d);
    }
  }

  /** The all-sites `catch` is never null, since its denominator counts every record at the date. */
  lemma AllSitesCatchNeverNull(data: seq<CpueRecord>, rows: seq<CatchPoint>)
    requires IsAllSitesSeries(data, rows)
    ensures forall i :: 0 <= i < |rows| ==> rows[i].catch.Some?
  {
    forall i | 0 <= i < |rows| ensures rows[i].catch.Some? {
      assert rows[i].date in DatesOfPoints(rows);
      DatedRecordsCounted(data, rows[i].date.value);
    }
  }

  /** In a strictly dated sequence the first point carries the least date. */
  lemma FirstIsLeast(a: seq<CatchPoint>, x: Option<int>)
    requires StrictlyDated(a) && x in DatesOfPoints(a)
    ensures a[0].date.value <= x.value
  {
    var p :| p in a && p.date == x;
    var k :| 0 <= k < |a| && a[k] == p;
    assert k == 0 || a[0].date.value < a[k].date.value;
  }

  lemma DropFirstDate(a: seq<CatchPoint>)
    requires StrictlyDated(a) && a != []
    ensures StrictlyDated(a[1..])
    ensures DatesOfPoints(a[1..]) == DatesOfPoints(a) - {a[0].date}
  {
    forall x ensures x in DatesOfPoints(a[1..]) <==> x in DatesOfPoints(a) && x != a[0].date {
      if x in DatesOfPoints(a[1..]) {
        var p :| p in a[1..] && p.date == x;
        var k :| 0 <= k < |a[1..]| && a[1..][k] == p;
        assert a[k + 1] == p;
      }
      if x in DatesOfPoints(a) && x != a[0].date {
        var p :| p in a && p.date == x;
        var k :| 0 <= k < |a| && a[k] == p;
        assert a[1..][k - 1] == p;
      }
    }
  }

  lemma EmptyDates(a: seq<CatchPoint>)
    ensures a == [] <==> DatesOfPoints(a) == {}
  {
    if a != [] {
      assert a[0].date in DatesOfPoints(a);
    }
  }

  /** Strictly dated rows of `data` with the same dates are the same rows. */
  lemma {:induction false} RowsDeterminedByDates(data: seq<CpueRecord>, a: seq<CatchPoint>, b: seq<CatchPoint>)
    requires StrictlyDated(a) && StrictlyDated(b)
    requires forall i :: 0 <= i < |a| ==> RowFor(data, a[i])
    requires forall i :: 0 <= i < |b| ==> RowFor(data, b[i])
    requires DatesOfPoints(a) == DatesOfPoints(b)
    ensures a == b
    decreases |a|
  {
    EmptyDates(a);
    EmptyDates(b);
    if a != [] {
      assert a[0].date in DatesOfPoints(b) && b[0].date in DatesOfPoints(a);
      FirstIsLeast(a, b[0].date);
      FirstIsLeast(b, a[0].date);
      assert RowFor(data, a[0]) && RowFor(data, b[0]);
      assert a[0] == b[0];
      DropFirstDate(a);
      DropFirstDate(b);
      forall i | 0 <= i < |a[1..]| ensures RowFor(data, a[1..][i]) { assert a[1..][i] == a[i + 1]; }
      forall i | 0 <= i < |b[1..]| ensures RowFor(data, b[1..][i]) { assert b[1..][i] == b[i + 1]; }
      RowsDeterminedByDates(data, a[1..], b[1..]);
      assert a == [a[0]] + a[1..] && b == [b[0]] + b[1..];
    }
  }

  /** `IsAllSitesSeries` determines the output: at most one sequence of rows meets it. */
  lemma AllSitesSeriesUnique(data: seq<CpueRecord>, a: seq<CatchPoint>, b: seq<CatchPoint>)
    requires IsAllSitesSeries(data, a) && IsAllSitesSeries(data, b)
    ensures a == b
  {
    forall x ensures x in DatesOfPoints(a) <==> x in DatesOfPoints(b) {
      if x in DatesOfPoints(a) {
        var p :| p in a && p.date == x;
        var k :| 0 <= k < |a| && a[k] == p;
        assert x.value in DatesOf(data);
      }
      if x in DatesOfPoints(b) {
        var p :| p in b && p.date == x;
        var k :| 0 <= k < |b| && b[k] == p;
        assert x.value in DatesOf(data);
      }
    }
    RowsDeterminedByDates(data, a, b);
  }

  /** Two records dated `d`: what the prefix-recursive definitions give for them. */
  lemma TwoRecordsAt(r1: CpueRecord, r2: CpueRecord, d: int)
    requires r1.monthDate == Some(d) && r2.monthDate == Some(d)
    ensures DatesOf([r1, r2]) == {d}
    ensures RecordsAt([r1, r2], d) == 2
    ensures CpueValues([r1, r2], d) == CpueValues([r1], d) + (if r2.cpue.Some? then [r2.cpue.value] else [])
    ensures CatchValues([r1, r2], d) == CatchValues([r1], d) + (if r2.catch.Some? then [r2.catch.value] else [])
    ensures CpueValues([r1], d) == (if r1.cpue.Some? then [r1.cpue.value] else [])
    ensures CatchValues([r1], d) == (if r1.catch.Some? then [r1.catch.value] else [])
  {
    assert [r1, r2][..1] == [r1] && [r1][..0] == [];
    assert DatesOf([r1]) == {d};
    assert RecordsAt([r1], d) == 1;
  }

  /** The two records of the example below and their averages at 202301. */
  lemma TwoSitesMeans(data: seq<CpueRecord>)
    requires data == [CpueRecord("1", "nungwi", Some(202301), Some(2.5), Some(10.0)),
                      CpueRecord("2", "wete", Some(202301), Some(1.5), None)]
    ensures DatesOf(data) == {202301}
    ensures MeanCpue(data, 202301) == Some(2.0) && MeanCatch(data, 202301) == Some(5.0)
  {
    TwoRecordsAt(data[0], data[1], 202301);
    assert CpueValues(data, 202301) == [2.5, 1.5];
    assert Sum([2.5, 1.5]) == 4.0 by { assert [2.5, 1.5][..1] == [2.5]; assert [2.5][..0] == []; }
    assert CatchValues(data, 202301) == [10.0];
    assert Sum([10.0]) == 10.0 by { assert [10.0][..0] == []; }
  }

  /**
   * Two records at one month date, with `cpue` 2.5 and 1.5 and `catch` 10 and null:
   * one row, `cpue` 2.0, and `catch` 10 / 2 = 5.0 because the null record still counts.
   */
  lemma TwoSitesAverage(rows: seq<CatchPoint>)
    requires IsAllSitesSeries(
      [CpueRecord("1", "nungwi", Some(202301), Some(2.5), Some(10.0)),
       CpueRecord("2", "wete", Some(202301), Some(1.5), None)], rows)
    ensures rows == [CatchPoint(Some(202301), Some(2.0), Some(5.0))]
  {
    var data := [CpueRecord("1", "nungwi", Some(202301), Some(2.5), Some(10.0)),
                 CpueRecord("2", "wete", Some(202301), Some(1.5), None)];
    TwoSitesMeans(data);
    var expected := [CatchPoint(Some(202301), Some(2.0), Some(5.0))];
    assert RowFor(data, expected[0]);
    assert DatesOfPoints(expected) == {Some(202301)};
    AllSitesSeriesUnique(data, rows, expected);
  }
}
