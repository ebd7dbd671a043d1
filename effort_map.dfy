/**
 * The effort map: the table of hour ranges, the selection of ranges the legend toggles,
 * and the filtering of the effort grid cells by metadata and by selected range.
 */
module EffortMap {
  import opened Wrappers

  /** An upper bound of a range; `Infinite` is JavaScript's `Infinity`. */
  datatype Bound = Finite(value: real) | Infinite

  /** A half-open range of average hours spent, `[min, max)`, with its legend text. */
  datatype TimeRange = TimeRange(min: real, max: Bound, legend: string)

  predicate InRange(x: real, r: TimeRange) {
    r.min <= x && (r.max.Infinite? || x < r.max.value)
  }

  /** Range identity as the source tests it: `min` and `max`, never the legend text. */
  predicate SameRange(a: TimeRange, b: TimeRange) {
    a.min == b.min && a.max == b.max
  }

  const BREAKS: seq<TimeRange> := [
    TimeRange(0.0, Finite(0.5), "0-0.5h"),
    TimeRange(0.5, Finite(1.0), "0.5-1h"),
    TimeRange(1.0, Finite(2.0), "1-2h"),
    TimeRange(2.0, Finite(3.0), "2-3h"),
    TimeRange(3.0, Finite(5.0), "3-5h"),
    TimeRange(5.0, Infinite, ">5h")
  ]

  /** Each range ends where the next begins, each is non-empty, and the last is unbounded. */
  ghost predicate Contiguous(bs: seq<TimeRange>) {
    && |bs| > 0
    && bs[|bs| - 1].max.Infinite?
    && forall i :: 0 <= i < |bs| - 1 ==> bs[i].max == Finite(bs[i + 1].min) && bs[i].min < bs[i + 1].min
  }

  lemma BreaksContiguous()
    ensures Contiguous(BREAKS) && BREAKS[0].min == 0.0
  {
  }

  /** In a contiguous table an earlier range ends no later than a later one starts. */
  lemma {:induction false} ContiguousOrdered(bs: seq<TimeRange>, i: int, j: int)
    requires Contiguous(bs) && 0 <= i < j < |bs|
    ensures bs[i].max.Finite? && bs[i].max.value <= bs[j].min
    decreases j - i
  {
    assert bs[i].max == Finite(bs[i + 1].min);
    if i + 1 < j {
      assert bs[i + 1].max == Finite(bs[i + 2].min);
      ContiguousOrdered(bs, i + 1, j);
    }
  }

  /** A contiguous table covers `[bs[0].min, ∞)` and every value there lies in exactly one range. */
  lemma {:induction false} ContiguousPartition(bs: seq<TimeRange>, x: real)
    requires Contiguous(bs) && bs[0].min <= x
    ensures exists i :: 0 <= i < |bs| && InRange(x, bs[i])
    ensures forall i, j :: 0 <= i < |bs| && 0 <= j < |bs| && InRange(x, bs[i]) && InRange(x, bs[j]) ==> i == j
  {
    forall i, j | 0 <= i < |bs| && 0 <= j < |bs| && InRange(x, bs[i]) && InRange(x, bs[j]) ensures i == j {
      if i < j { ContiguousOrdered(bs, i, j); }
      if j < i { ContiguousOrdered(bs, j, i); }
    }
    assert |bs| > 1 ==> bs[0].max == Finite(bs[1].min);
    if |bs| == 1 {
      assert InRange(x, bs[0]);
    } else if x < bs[0].max.value {
      assert InRange(x, bs[0]);
    } else {
      var rest := bs[1..];
      assert Contiguous(rest) by {
        forall i | 0 <= i < |rest| - 1 ensures rest[i].max == Finite(rest[i + 1].min) && rest[i].min < rest[i + 1].min {
          assert rest[i] == bs[i + 1] && rest[i + 1] == bs[i + 2];
        }
      }
      ContiguousPartition(rest, x);
      var k :| 0 <= k < |rest| && InRange(x, rest[k]);
      assert InRange(x, bs[k + 1]);
    }
  }

  /** Every non-negative number of hours falls in exactly one of `BREAKS`. */
  lemma BreaksPartition(x: real)
    requires 0.0 <= x
    ensures exists i :: 0 <= i < |BREAKS| && InRange(x, BREAKS[i])
    ensures forall i, j :: 0 <= i < |BREAKS| && 0 <= j < |BREAKS| && InRange(x, BREAKS[i]) && InRange(x, BREAKS[j]) ==> i == j
  {
    BreaksContiguous();
    ContiguousPartition(BREAKS, x);
  }

  /** Some selected range has the same bounds as `range`. */
  predicate IsSelected(current: seq<TimeRange>, range: TimeRange) {
    exists i :: 0 <= i < |current| && SameRange(current[i], range)
  }

  /** The selection without the ranges whose bounds equal those of `range`. */
  function WithoutRange(current: seq<TimeRange>, range: TimeRange): (r: seq<TimeRange>)
    ensures |r| <= |current|
    ensures forall x :: x in r <==> x in current && !SameRange(x, range)
  {
    if current == [] then []
    else
      var rest := WithoutRange(current[1..], range);
      assert forall x :: x in current <==> x == current[0] || x in current[1..];
      if SameRange(current[0], range) then rest else [current[0]] + rest
  }

  /** One range is dropped exactly when it has the removed bounds. */
  lemma WithoutRangeSingle(x: TimeRange, range: TimeRange)
    ensures WithoutRange([x], range) == if SameRange(x, range) then [] else [x]
  {
    assert [x][1..] == [];
  }

  /** The filter keeps the other ranges in their order: it distributes over concatenation. */
  lemma {:induction false} WithoutRangeAppend(a: seq<TimeRange>, b: seq<TimeRange>, range: TimeRange)
    ensures WithoutRange(a + b, range) == WithoutRange(a, range) + WithoutRange(b, range)
    decreases |a|
  {
    if a == [] {
      assert a + b == b;
    } else {
      assert (a + b)[0] == a[0] && (a + b)[1..] == a[1..] + b;
      WithoutRangeAppend(a[1..], b, range);
    }
  }

  /** No two selected ranges share their bounds. */
  ghost predicate DistinctRanges(s: seq<TimeRange>) {
    forall i, j :: 0 <= i < j < |s| ==> !SameRange(s[i], s[j])
  }

  /** The tail of a list of distinct ranges is distinct. */
  lemma DistinctTail(s: seq<TimeRange>)
    requires DistinctRanges(s) && s != []
    ensures DistinctRanges(s[1..])
    ensures forall x :: x in s[1..] ==> !SameRange(s[0], x)
  {
    var rest := s[1..];
    forall i, j | 0 <= i < j < |rest| ensures !SameRange(rest[i], rest[j]) {
      assert rest[i] == s[i + 1] && rest[j] == s[j + 1];
    }
    forall x | x in rest ensures !SameRange(s[0], x) {
      var k :| 0 <= k < |rest| && rest[k] == x;
      assert s[k + 1] == x;
    }
  }

  /** With distinct ranges, removing a selected one removes exactly one entry and keeps the rest distinct. */
  lemma {:induction false} WithoutSelectedRange(current: seq<TimeRange>, range: TimeRange)
    requires DistinctRanges(current) && IsSelected(current, range)
    ensures |WithoutRange(current, range)| == |current| - 1
    ensures DistinctRanges(WithoutRange(current, range))
  {
    var rest := current[1..];
    DistinctTail(current);
    WithoutDistinct(rest, range);
    if SameRange(current[0], range) {
      WithoutAbsent(rest, range);
    } else {
      var i :| 0 <= i < |current| && SameRange(current[i], range);
      assert rest[i - 1] == current[i];
      WithoutSelectedRange(rest, range);
      ConsDistinct(current[0], WithoutRange(rest, range));
    }
  }

  /** A range unlike every element of a distinct list extends it to a distinct list. */
  lemma ConsDistinct(h: TimeRange, t: seq<TimeRange>)
    requires DistinctRanges(t)
    requires forall x :: x in t ==> !SameRange(h, x)
    ensures DistinctRanges([h] + t)
  {
    var r := [h] + t;
    forall i, j | 0 <= i < j < |r| ensures !SameRange(r[i], r[j]) {
      assert r[j] == t[j - 1] && r[j] in t;
      if i > 0 {
        assert r[i] == t[i - 1];
      }
    }
  }

  /** Removing a range that is not selected changes nothing. */
  lemma {:induction false} WithoutAbsent(current: seq<TimeRange>, range: TimeRange)
    requires forall x :: x in current ==> !SameRange(x, range)
    ensures WithoutRange(current, range) == current
  {
    if current != [] {
      WithoutAbsent(current[1..], range);
      assert current == [current[0]] + current[1..];
    }
  }

  lemma {:induction false} WithoutDistinct(current: seq<TimeRange>, range: TimeRange)
    requires DistinctRanges(current)
    ensures DistinctRanges(WithoutRange(current, range))
  {
    if current != [] {
      DistinctTail(current);
      WithoutDistinct(current[1..], range);
      ConsDistinct(current[0], WithoutRange(current[1..], range));
    }
  }

  /** Toggling a range on and then off again restores the selection. */
  lemma AddThenRemove(current: seq<TimeRange>, range: TimeRange)
    requires !IsSelected(current, range)
    ensures WithoutRange(current + [range], range) == current
  {
    forall x | x in current + [range] && x != range ensures !SameRange(x, range) {
      var k :| 0 <= k < |current| && current[k] == x;
    }
    WithoutAppended(current, range);
  }

  lemma {:induction false} WithoutAppended(current: seq<TimeRange>, range: TimeRange)
    requires !IsSelected(current, range)
    ensures WithoutRange(current + [range], range) == current
  {
    if current == [] {
      assert [range][1..] == [];
    } else {
      assert (current + [range])[1..] == current[1..] + [range];
      assert !IsSelected(current[1..], range) by {
        forall k | 0 <= k < |current[1..]| ensures !SameRange(current[1..][k], range) {
          assert current[1..][k] == current[k + 1];
        }
      }
      WithoutAppended(current[1..], range);
      assert !SameRange(current[0], range);
      assert current == [current[0]] + current[1..];
    }
  }

  /** The legend text plays no part in selection or removal. */
  lemma LabelIgnored(current: seq<TimeRange>, a: TimeRange, b: TimeRange)
    requires SameRange(a, b)
    ensures IsSelected(current, a) == IsSelected(current, b)
    ensures WithoutRange(current, a) == WithoutRange(current, b)
  {
    SameRangeWithout(current, a, b);
  }

  lemma {:induction false} SameRangeWithout(current: seq<TimeRange>, a: TimeRange, b: TimeRange)
    requires SameRange(a, b)
    ensures WithoutRange(current, a) == WithoutRange(current, b)
  {
    if current != [] {
      SameRangeWithout(current[1..], a, b);
    }
  }

  /** The `selectedRanges` state of the map and its `handleRangeToggle` handler. */
  class RangeSelection {
    var selected: seq<TimeRange>

    /** The selection is never empty and holds each range at most once. */
    ghost predicate Valid()
      reads this
    {
      selected != [] && DistinctRanges(selected)
    }

    /** `useState(BREAKS)`: every range is selected at first. */
    constructor ()
      ensures Valid() && selected == BREAKS
    {
      selected := BREAKS;
    }

    /** `handleRangeToggle(range)`. */
    method Toggle(range: TimeRange)
      requires Valid()
      modifies this
      ensures Valid()
      ensures !IsSelected(old(selected), range) ==> selected == old(selected) + [range]
      ensures IsSelected(old(selected), range) && |old(selected)| == 1 ==> selected == old(selected)
      ensures IsSelected(old(selected), range) && |old(selected)| > 1 ==>
        selected == WithoutRange(old(selected), range) && |selected| == |old(selected)| - 1
    {
      var isSelected := exists i :: 0 <= i < |selected| && SameRange(selected[i], range);
      if isSelected {
        if |selected| == 1 {
          return;
        }
        WithoutSelectedRange(selected, range);
        selected := WithoutRange(selected, range);
      } else {
        selected := selected + [range];
      }
    }
  }

  /** One cell of the effort grid, fields already read from the JSON file. */
  datatype EffortCell = EffortCell(
    cellType: Option<string>,
    lng: real,
    lat: real,
    avgTimeHours: Option<real>,   // None: a missing or falsy value
    totalVisits: Option<int>,     // the `parseInt` result, None for NaN
    avgSpeed: Option<real>,       // the `parseFloat` result, None for NaN
    originalCells: Option<int>)   // the `parseInt` result, None for NaN

  /** A cell after the `.map(...)`. */
  datatype EffortPoint = EffortPoint(lng: real, lat: real, avgTimeHours: real, totalVisits: int, avgSpeed: real, originalCells: int)

  predicate OccursAt(t: string, word: string, i: int) {
    0 <= i <= |t| - |word| && t[i..i + |word|] == word
  }

  /** `t.includes(word)` on strings. */
  predicate Contains(t: string, word: string) {
    exists i :: 0 <= i <= |t| - |word| && OccursAt(t, word, i)
  }

  /** `d.type?.includes('metadata')`: a cell without a type is not metadata. */
  predicate IsMetadata(c: EffortCell) {
    c.cellType.Some? && Contains(c.cellType.value, "metadata")
  }

  function ToEffortPoint(c: EffortCell): (p: EffortPoint)
    ensures p.avgTimeHours == c.avgTimeHours.GetOr(0.0)
  {
    EffortPoint(c.lng, c.lat, c.avgTimeHours.GetOr(0.0), c.totalVisits.GetOr(0), c.avgSpeed.GetOr(0.0), c.originalCells.GetOr(0))
  }

  /** The second `.filter`: kept when the selection is empty or some selected range holds the hours. */
  predicate InSelection(hours: real, selected: seq<TimeRange>) {
    |selected| == 0 || exists i :: 0 <= i < |selected| && InRange(hours, selected[i])
  }

  predicate Keeps(c: EffortCell, selected: seq<TimeRange>) {
    !IsMetadata(c) && InSelection(ToEffortPoint(c).avgTimeHours, selected)
  }

  /** `transformedData`: drop metadata, map, keep what the selection admits, in order. */
  function TransformEffort(cells: seq<EffortCell>, selected: seq<TimeRange>): (r: seq<EffortPoint>)
    ensures |r| <= |cells|
    ensures forall p :: p in r <==> exists i :: 0 <= i < |cells| && Keeps(cells[i], selected) && p == ToEffortPoint(cells[i])
  {
    if cells == [] then []
    else
      var rest := TransformEffort(cells[1..], selected);
      assert forall p :: p in rest <==> exists i :: 1 <= i < |cells| && Keeps(cells[i], selected) && p == ToEffortPoint(cells[i]) by {
        forall p | p in rest ensures exists i :: 1 <= i < |cells| && Keeps(cells[i], selected) && p == ToEffortPoint(cells[i]) {
          var i' :| 0 <= i' < |cells[1..]| && Keeps(cells[1..][i'], selected) && p == ToEffortPoint(cells[1..][i']);
          assert cells[i' + 1] == cells[1..][i'];
        }
        forall p | exists i :: 1 <= i < |cells| && Keeps(cells[i], selected) && p == ToEffortPoint(cells[i]) ensures p in rest {
          var i :| 1 <= i < |cells| && Keeps(cells[i], selected) && p == ToEffortPoint(cells[i]);
          assert cells[1..][i - 1] == cells[i];
        }
      }
      if Keeps(cells[0], selected) then [ToEffortPoint(cells[0])] + rest else rest
  }

  /** The transform works cell by cell and keeps order: it distributes over concatenation. */
  lemma {:induction false} TransformAppend(a: seq<EffortCell>, b: seq<EffortCell>, selected: seq<TimeRange>)
    ensures TransformEffort(a + b, selected) == TransformEffort(a, selected) + TransformEffort(b, selected)
  {
    if a == [] {
      assert a + b == b;
    } else {
      assert (a + b)[0] == a[0];
      assert (a + b)[1..] == a[1..] + b;
      TransformAppend(a[1..], b, selected);
    }
  }

  /** The non-metadata cells, mapped: what the initial selection shows when no hours are negative. */
  function NonMetadataPoints(cells: seq<EffortCell>): seq<EffortPoint> {
    if cells == [] then []
    else (if IsMetadata(cells[0]) then [] else [ToEffortPoint(cells[0])]) + NonMetadataPoints(cells[1..])
  }

  /** Under the initial selection (all of `BREAKS`) every non-metadata cell with non-negative hours is shown. */
  lemma {:induction false} InitialSelectionKeepsAll(cells: seq<EffortCell>)
    requires forall i :: 0 <= i < |cells| ==> cells[i].avgTimeHours.GetOr(0.0) >= 0.0
    ensures TransformEffort(cells, BREAKS) == NonMetadataPoints(cells)
  {
    if cells != [] {
      BreaksPartition(cells[0].avgTimeHours.GetOr(0.0));
      InitialSelectionKeepsAll(cells[1..]);
    }
  }
}
