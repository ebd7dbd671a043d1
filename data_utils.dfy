/**
 * The memoised time-series generator with its bounded, insertion-ordered cache,
 * and the choice of unit suffix when formatting numbers.
 */
module DataUtils {
  import opened Wrappers

  /** The cache key `${days}-${baseValue}-${volatility}`, kept as the triple it is built from. */
  datatype SeriesKey = SeriesKey(days: int, baseValue: real, volatility: real)

  /** The defaults `days = 30, baseValue = 100, volatility = 0.2` for omitted arguments. */
  function KeyFor(days: Option<int>, baseValue: Option<real>, volatility: Option<real>): (k: SeriesKey)
    ensures days.Some? ==> k.days == days.value
    ensures days.None? ==> k.days == 30
    ensures baseValue.Some? ==> k.baseValue == baseValue.value
    ensures baseValue.None? ==> k.baseValue == 100.0
    ensures volatility.Some? ==> k.volatility == volatility.value
    ensures volatility.None? ==> k.volatility == 0.2
  {
    SeriesKey(days.GetOr(30), baseValue.GetOr(100.0), volatility.GetOr(0.2))
  }

  /** One generated point: a timestamp in milliseconds and a rounded value. */
  datatype SeriesPoint = SeriesPoint(x: int, y: int)

  const DAY_MS: int := 24 * 60 * 60 * 1000

  /** `Math.round`: the nearest integer, halves rounded up. */
  function Round(v: real): (n: int)
    ensures (n as real) - 0.5 <= v < (n as real) + 0.5
  {
    (v + 0.5).Floor
  }

  /** The unrounded value of point `i` for the random draw `draw(i)`. */
  function Value(k: SeriesKey, u: real): real {
    k.baseValue + k.baseValue * k.volatility * (u - 0.5)
  }

  /**
   * The `Array.from({ length: days }, ...)` body: `now` is the clock reading,
   * `draw(i)` the `Math.random()` result for point `i`.
   */
  function GenerateSeries(k: SeriesKey, now: int, draw: int -> real): (r: seq<SeriesPoint>)
    ensures |r| == if k.days < 0 then 0 else k.days
    ensures forall i :: 0 <= i < |r| ==> r[i].x == now - (k.days - i) * DAY_MS
    ensures forall i :: 0 <= i < |r| ==> (r[i].y as real) - 0.5 <= Value(k, draw(i)) < (r[i].y as real) + 0.5
  {
    var n := if k.days < 0 then 0 else k.days;
    seq(n, i => SeriesPoint(now - (k.days - i) * DAY_MS, Round(Value(k, draw(i)))))
  }

  /** Consecutive points are one day apart and the last lies one day before `now`. */
  lemma SeriesSpacing(k: SeriesKey, now: int, draw: int -> real)
    requires k.days > 0
    ensures GenerateSeries(k, now, draw)[k.days - 1].x == now - DAY_MS
    ensures forall i :: 0 < i < |GenerateSeries(k, now, draw)| ==>
      GenerateSeries(k, now, draw)[i].x - GenerateSeries(k, now, draw)[i - 1].x == DAY_MS
  {
  }

  /** With a non-negative base and volatility a draw in `[0, 1)` keeps the value within `baseValue * (1 ± volatility / 2)`. */
  lemma ValueBounds(k: SeriesKey, u: real)
    requires 0.0 <= k.baseValue && 0.0 <= k.volatility && 0.0 <= u < 1.0
    ensures k.baseValue - k.baseValue * k.volatility / 2.0 <= Value(k, u) <= k.baseValue + k.baseValue * k.volatility / 2.0
  {
    var bv := k.baseValue * k.volatility;
    NonNegativeProduct(k.baseValue, k.volatility);
    NonNegativeProduct(bv, u);
    NonNegativeProduct(bv, 1.0 - u);
    assert bv * (1.0 - u) == bv - bv * u;
    assert Value(k, u) == k.baseValue + bv * u - bv / 2.0;
  }

  /** Every generated value lies within those bounds, up to rounding. */
  lemma SeriesBounds(k: SeriesKey, now: int, draw: int -> real, i: int)
    requires 0.0 <= k.baseValue && 0.0 <= k.volatility
    requires 0 <= i < |GenerateSeries(k, now, draw)|
    requires 0.0 <= draw(i) < 1.0
    ensures k.baseValue - k.baseValue * k.volatility / 2.0 - 0.5 <= GenerateSeries(k, now, draw)[i].y as real
    ensures (GenerateSeries(k, now, draw)[i].y as real) <= k.baseValue + k.baseValue * k.volatility / 2.0 + 0.5
  {
    ValueBounds(k, draw(i));
  }

  lemma NonNegativeProduct(a: real, b: real)
    requires 0.0 <= a && 0.0 <= b
    ensures 0.0 <= a * b
  {
  }

  /** The largest size the cache may have before an insertion without evicting. */
  const CACHE_LIMIT: nat := 100

  /** No key occurs twice. */
  ghost predicate DistinctKeys(s: seq<SeriesKey>) {
    forall i, j :: 0 <= i < j < |s| ==> s[i] != s[j]
  }

  /** A sequence of distinct keys has as many elements as the set of its keys. */
  lemma {:induction false} DistinctKeysCount(s: seq<SeriesKey>)
    requires DistinctKeys(s)
    ensures |set k | k in s| == |s|
  {
    if s != [] {
      var rest := s[1..];
      assert DistinctKeys(rest) by {
        forall i, j | 0 <= i < j < |rest| ensures rest[i] != rest[j] {
          assert rest[i] == s[i + 1] && rest[j] == s[j + 1];
        }
      }
      DistinctKeysCount(rest);
      assert s[0] !in rest by {
        forall i | 0 <= i < |rest| ensures rest[i] != s[0] {
          assert rest[i] == s[i + 1];
        }
      }
      assert (set k | k in s) == (set k | k in rest) + {s[0]} by {
        assert s == [s[0]] + rest;
      }
    }
  }

  /** The closed-over `Map` of `generateTimeSeriesData`, with its insertion order kept explicitly. */
  class SeriesMemo {
    var order: seq<SeriesKey>
    var store: map<SeriesKey, seq<SeriesPoint>>

    /** The order lists every stored key once, and the cache never outgrows 101 entries. */
    ghost predicate Valid()
      reads this
    {
      && DistinctKeys(order)
      && (forall k :: k in store <==> k in order)
      && |order| <= CACHE_LIMIT + 1
    }

    constructor ()
      ensures Valid() && order == [] && store == map[]
    {
      order := [];
      store := map[];
    }

    /** A call of the generator with the key `k`. */
    method Generate(k: SeriesKey, now: int, draw: int -> real) returns (data: seq<SeriesPoint>)
      requires Valid()
      modifies this
      ensures Valid() && |store| <= CACHE_LIMIT + 1
      ensures k in old(store) ==> data == old(store)[k] && order == old(order) && store == old(store)
      ensures k !in old(store) ==> data == GenerateSeries(k, now, draw) && k in store && store[k] == data
      ensures k !in old(store) && |old(order)| > CACHE_LIMIT ==>
        && order == old(order)[1..] + [k]
        && store == (old(store) - {old(order)[0]})[k := data]
      ensures k !in old(store) && |old(order)| <= CACHE_LIMIT ==>
        order == old(order) + [k] && store == old(store)[k := data]
    {
      if k in store {
        data := store[k];
        DistinctKeysCount(order);
        assert store.Keys == set x | x in order;
        return;
      }
      data := GenerateSeries(k, now, draw);
      if |order| > CACHE_LIMIT {
        var first := order[0];
        assert forall i :: 1 <= i < |order| ==> order[i] != first;
        store := store - {first};
        order := order[1..];
      }
      store := store[k := data];
      order := order + [k];
      DistinctKeysCount(order);
      assert store.Keys == set x | x in order;
    }
  }

  /** A hit leaves the cache as it was, so a second call with the same key returns the first call's array. */
  method RepeatedGenerate(k: SeriesKey, now1: int, now2: int, draw1: int -> real, draw2: int -> real)
    returns (first: seq<SeriesPoint>, second: seq<SeriesPoint>)
    ensures first == second == GenerateSeries(k, now1, draw1)
  {
    var memo := new SeriesMemo();
    first := memo.Generate(k, now1, draw1);
    second := memo.Generate(k, now2, draw2);
  }

  /** The outcome of `formatNumber`: a value over a unit with its suffix, or the number itself. */
  datatype Formatted = Scaled(mantissa: real, suffix: char) | Plain(value: real)

  function UnitOf(suffix: char): real {
    match suffix
    case 'B' => 1000000000.0
    case 'M' => 1000000.0
    case _ => 1000.0
  }

  /** The number a formatted value stands for, before `toFixed(1)` rounds the mantissa. */
  function Denotes(f: Formatted): real {
    match f
    case Scaled(m, s) => m * UnitOf(s)
    case Plain(v) => v
  }

  /** `formatNumber(number)`, with `toFixed(1)` and `toString()` left as the real they render. */
  function FormatNumber(n: real): (r: Formatted)
    ensures r.Plain? <==> n < 1000.0
    ensures r.Scaled? ==> r.suffix in {'K', 'M', 'B'} && 1.0 <= r.mantissa
    ensures r.Scaled? && r.suffix != 'B' ==> r.mantissa < 1000.0
    ensures (r.Scaled? && r.suffix == 'B') <==> n >= 1000000000.0
    ensures (r.Scaled? && r.suffix == 'M') <==> 1000000.0 <= n < 1000000000.0
    ensures (r.Scaled? && r.suffix == 'K') <==> 1000.0 <= n < 1000000.0
  {
    if n >= 1000000000.0 then Scaled(n / 1000000000.0, 'B')
    else if n >= 1000000.0 then Scaled(n / 1000000.0, 'M')
    else if n >= 1000.0 then Scaled(n / 1000.0, 'K')
    else Plain(n)
  }

  /** Formatting loses nothing before rendering: the suffix and mantissa denote the number. */
  lemma FormatDenotes(n: real)
    ensures Denotes(FormatNumber(n)) == n
  {
  }

  /** A larger number never gets a smaller unit. */
  lemma FormatMonotone(a: real, b: real)
    requires a <= b && FormatNumber(a).Scaled?
    ensures FormatNumber(b).Scaled? && UnitOf(FormatNumber(a).suffix) <= UnitOf(FormatNumber(b).suffix)
  {
  }
}
