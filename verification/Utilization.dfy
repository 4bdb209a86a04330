/** The utilization reader: raw rows from the boundary on, merged rows below it, and when the two
    together say what the samples said. */
module Utilization {
  import opened Tables
  import opened Rollup

  /** A utilization query: a closed window, the raw/merged split, and the GPUs in scope. */
  datatype Query = Query(from: Time, to: Time, boundary: Time, scope: GpuId -> bool)

  datatype Point = Point(u: real, w: real)

  predicate Shown(q: Query, t: Time) { q.from <= t <= q.to }

  function RawPoints(rows: seq<Row>, q: Query): seq<Point> {
    if rows == [] then []
    else
      var r := rows[|rows| - 1];
      RawPoints(rows[..|rows| - 1], q) +
      if q.scope(r.gpu) && Shown(q, r.ts) && r.ts >= q.boundary then [Point(r.util, 1.0)] else []
  }

  /** `keys` lists the merged rows in the order they are scanned. */
  function MergedPoints(keys: seq<Key>, rollups: Rollups, q: Query): seq<Point> {
    if keys == [] then []
    else
      var k := keys[|keys| - 1];
      MergedPoints(keys[..|keys| - 1], rollups, q) +
      if k in rollups && q.scope(k.gpu) && Shown(q, k.hour) && k.hour < q.boundary
      then [Point(rollups[k].avgUtil, rollups[k].count as real)] else []
  }

  function Weight(points: seq<Point>): real {
    if points == [] then 0.0 else Weight(points[..|points| - 1]) + points[|points| - 1].w
  }

  function Weighted(points: seq<Point>): real {
    if points == [] then 0.0
    else Weighted(points[..|points| - 1]) + points[|points| - 1].u * points[|points| - 1].w
  }

  function Points(s: Store, keys: seq<Key>, q: Query): seq<Point> {
    RawPoints(s.raw, q) + MergedPoints(keys, s.rollups, q)
  }

  /** sum(u*w)/NULLIF(sum(w),0). */
  function Mean(points: seq<Point>): Option<real> {
    if Weight(points) == 0.0 then None else Some(Weighted(points) / Weight(points))
  }

  /** Both sums at once: of weights for Samples, of weighted values for UtilSum. */
  function PointSum(points: seq<Point>, m: Measure): real { if m.Samples? then Weight(points) else Weighted(points) }

  lemma {:induction false} PointsAppend(a: seq<Point>, b: seq<Point>, m: Measure)
    ensures PointSum(a + b, m) == PointSum(a, m) + PointSum(b, m)
  {
    if b == [] {
      assert a + b == a;
    } else {
      assert (a + b)[..|a + b| - 1] == a + b[..|b| - 1];
      PointsAppend(a, b[..|b| - 1], m);
    }
  }

  lemma OnePoint(points: seq<Point>, p: Point, m: Measure)
    ensures PointSum(points + [p], m) == PointSum(points, m) + if m.Samples? then p.w else p.u * p.w
  {
    assert (points + [p])[..|points + [p]| - 1] == points;
  }

  // The rows a query is about, and those of them the split leaves to either side.
  function Asked(q: Query): Keep { (r: Row) => q.scope(r.gpu) && Shown(q, r.ts) }
  function AskedFrom(q: Query): Keep { (r: Row) => q.scope(r.gpu) && Shown(q, r.ts) && r.ts >= q.boundary }
  function AskedBelow(q: Query): Keep { (r: Row) => q.scope(r.gpu) && Shown(q, r.ts) && r.ts < q.boundary }

  lemma {:induction false} RawPointsSum(rows: seq<Row>, q: Query, m: Measure)
    requires m.Samples? || m.UtilSum?
    ensures PointSum(RawPoints(rows, q), m) == Sum(rows, AskedFrom(q), m)
    ensures Sum(rows, Asked(q), m) == Sum(rows, AskedFrom(q), m) + Sum(rows, AskedBelow(q), m)
  {
    if rows != [] {
      var r, front := rows[|rows| - 1], rows[..|rows| - 1];
      RawPointsSum(front, q, m);
      if AskedFrom(q)(r) { OnePoint(RawPoints(front, q), Point(r.util, 1.0), m); }
      else { assert RawPoints(rows, q) == RawPoints(front, q); }
    }
  }

  // ----- sums by hour

  function KeySum(keys: seq<Key>, g: Key -> real): real {
    if keys == [] then 0.0 else KeySum(keys[..|keys| - 1], g) + g(keys[|keys| - 1])
  }

  /** The hours whose merged rows a query reads. */
  predicate Picked(q: Query, k: Key) { q.scope(k.gpu) && Shown(q, k.hour) && k.hour < q.boundary }

  function MergedAt(s: Store, q: Query, m: Measure): Key -> real {
    k => if Picked(q, k) then EntryTotal(s.rollups, k, m) else 0.0
  }

  function RowsAt(rows: seq<Row>, q: Query, m: Measure): Key -> real {
    k => if Picked(q, k) then Sum(rows, In(k), m) else 0.0
  }

  lemma {:induction false} KeySumAdds(keys: seq<Key>, a: Key -> real, b: Key -> real, c: Key -> real)
    requires forall k | k in keys :: a(k) == b(k) + c(k)
    ensures KeySum(keys, a) == KeySum(keys, b) + KeySum(keys, c)
  {
    if keys != [] {
      assert keys[|keys| - 1] in keys;
      KeySumAdds(keys[..|keys| - 1], a, b, c);
    }
  }

  /** A merged row's point weighs and counts as much as the samples behind it. */
  lemma MergedPoint(points: seq<Point>, s: Store, q: Query, k: Key, m: Measure)
    requires m.Samples? || m.UtilSum?
    requires k in s.rollups && Picked(q, k)
    ensures PointSum(points + [Point(s.rollups[k].avgUtil, s.rollups[k].count as real)], m) ==
            PointSum(points, m) + MergedAt(s, q, m)(k)
  {
    OnePoint(points, Point(s.rollups[k].avgUtil, s.rollups[k].count as real), m);
  }

  lemma {:induction false} MergedPointsSum(keys: seq<Key>, s: Store, q: Query, m: Measure)
    requires m.Samples? || m.UtilSum?
    ensures PointSum(MergedPoints(keys, s.rollups, q), m) == KeySum(keys, MergedAt(s, q, m))
  {
    if keys != [] {
      var k, front := keys[|keys| - 1], keys[..|keys| - 1];
      MergedPointsSum(front, s, q, m);
      var points := MergedPoints(front, s.rollups, q);
      if k in s.rollups && Picked(q, k) {
        MergedPoint(points, s, q, k, m);
      } else {
        assert MergedAt(s, q, m)(k) == 0.0;
        assert MergedPoints(keys, s.rollups, q) == points;
      }
    }
  }

  /** The rows of the picked hours, hour by hour. */
  function Among(keys: seq<Key>, q: Query): Keep { (r: Row) => KeyOf(r) in keys && Picked(q, KeyOf(r)) }

  lemma {:induction false} OneMoreKey(rows: seq<Row>, keys: seq<Key>, q: Query, k: Key, m: Measure)
    requires k !in keys
    ensures Sum(rows, Among(keys + [k], q), m) ==
            Sum(rows, Among(keys, q), m) + if Picked(q, k) then Sum(rows, In(k), m) else 0.0
  {
    if rows != [] { OneMoreKey(rows[..|rows| - 1], keys, q, k, m); }
  }

  predicate Distinct(keys: seq<Key>) { forall i, j | 0 <= i < j < |keys| :: keys[i] != keys[j] }

  lemma {:induction false} NoRows(rows: seq<Row>, q: Query, m: Measure)
    ensures Sum(rows, Among([], q), m) == 0.0
  {
    if rows != [] { NoRows(rows[..|rows| - 1], q, m); }
  }

  lemma {:induction false} SumByHour(rows: seq<Row>, keys: seq<Key>, q: Query, m: Measure)
    requires Distinct(keys)
    ensures Sum(rows, Among(keys, q), m) == KeySum(keys, RowsAt(rows, q, m))
  {
    if keys == [] {
      NoRows(rows, q, m);
    } else {
      var k, front := keys[|keys| - 1], keys[..|keys| - 1];
      SumByHour(rows, front, q, m);
      OneMoreKey(rows, front, q, k, m);
      assert front + [k] == keys;
    }
  }

  /** Each end of the window lies on the hour, or at or past the boundary. */
  predicate Clean(q: Query) {
    (q.from % HOUR == 0 || q.from >= q.boundary) && ((q.to + 1) % HOUR == 0 || q.to + 1 >= q.boundary)
  }

  /** Below a whole-hour boundary a clean window shows a row exactly when it shows its hour. */
  lemma CleanShows(q: Query, t: Time)
    requires q.boundary % HOUR == 0 && Clean(q)
    ensures t < q.boundary <==> HourOf(t) < q.boundary
    ensures t < q.boundary ==> (Shown(q, t) <==> Shown(q, HourOf(t)))
  {
    var a, b, c, h := q.from / HOUR, (q.to + 1) / HOUR, q.boundary / HOUR, t / HOUR;
    assert q.boundary == c * HOUR && HourOf(t) == h * HOUR && h * HOUR <= t < (h + 1) * HOUR;
    if q.from % HOUR == 0 { assert q.from == a * HOUR; }
    if (q.to + 1) % HOUR == 0 { assert q.to + 1 == b * HOUR; }
  }

  lemma {:induction false} AskedByHour(rows: seq<Row>, keys: seq<Key>, q: Query, m: Measure)
    requires q.boundary % HOUR == 0 && Clean(q) && forall i | 0 <= i < |rows| :: KeyOf(rows[i]) in keys
    ensures Sum(rows, AskedBelow(q), m) == Sum(rows, Among(keys, q), m)
  {
    if rows != [] {
      AskedByHour(rows[..|rows| - 1], keys, q, m);
      CleanShows(q, rows[|rows| - 1].ts);
    }
  }

  // ----- a listing of hours that covers everything

  function Cover(keys: seq<Key>, rows: seq<Row>): (c: seq<Key>)
    requires Distinct(keys)
    ensures Distinct(c) && |keys| <= |c| && c[..|keys|] == keys
    ensures forall i | 0 <= i < |rows| :: KeyOf(rows[i]) in c
  {
    if rows == [] then keys
    else
      var c := Cover(keys, rows[..|rows| - 1]);
      if KeyOf(rows[|rows| - 1]) in c then c else c + [KeyOf(rows[|rows| - 1])]
  }

  ghost predicate Lists(keys: seq<Key>, rollups: Rollups) {
    Distinct(keys) && forall k :: k in keys <==> k in rollups
  }

  /** Hours without a merged row add no point. */
  lemma {:induction false} CoverAddsNoPoint(keys: seq<Key>, rows: seq<Row>, rollups: Rollups, q: Query)
    requires Distinct(keys) && forall k | k in rollups :: k in keys
    ensures MergedPoints(Cover(keys, rows), rollups, q) == MergedPoints(keys, rollups, q)
    ensures forall k | k in keys :: k in Cover(keys, rows)
  {
    if rows != [] {
      var c, k := Cover(keys, rows[..|rows| - 1]), KeyOf(rows[|rows| - 1]);
      CoverAddsNoPoint(keys, rows[..|rows| - 1], rollups, q);
      if k !in c { assert (c + [k])[..|c|] == c; }
    }
  }

  // ----- what a query reads

  /** The query fits the history: no sweep went past its boundary, and no hour its window reads
      from the merged rows has aged out. */
  predicate Fits(ops: seq<Op>, n: nat, q: Query)
    requires n <= |ops|
  {
    forall i | 0 <= i < n && ops[i].Swept? ::
      ops[i].boundary <= q.boundary && (ops[i].oldest <= q.from || q.boundary <= q.from)
  }

  lemma {:induction false} FromKeepsAsked(rows: seq<Row>, b: Time, q: Query, m: Measure)
    requires b <= q.boundary
    ensures Sum(From(rows, b), AskedFrom(q), m) == Sum(rows, AskedFrom(q), m)
  {
    if rows != [] {
      var n := |rows| - 1;
      FromKeepsAsked(rows[..n], b, q, m);
      if rows[n].ts >= b { AddRow(From(rows[..n], b), rows[n], AskedFrom(q), m, UtilPeak); }
      else { assert From(rows, b) == From(rows[..n], b); }
    }
  }

  /** No sweep has touched the rows from the boundary on: they are all still raw. */
  lemma {:induction false} RecentIsRaw(ops: seq<Op>, n: nat, q: Query, m: Measure)
    requires n <= |ops| && forall i | 0 <= i < n && ops[i].Swept? :: ops[i].boundary <= q.boundary
    ensures Sum(StoreAfter(ops, n).raw, AskedFrom(q), m) == Sum(EverIngested(ops, n), AskedFrom(q), m)
    decreases n
  {
    if n > 0 {
      RecentIsRaw(ops, n - 1, q, m);
      var s, all := StoreAfter(ops, n - 1), EverIngested(ops, n - 1);
      if ops[n - 1].Ingested? {
        SumAppend(s.raw, ops[n - 1].rows, AskedFrom(q), m);
        SumAppend(all, ops[n - 1].rows, AskedFrom(q), m);
      } else {
        FromKeepsAsked(s.raw, ops[n - 1].boundary, q, m);
        assert EverIngested(ops, n) == all;
      }
    }
  }

  lemma HourAddsUp(ops: seq<Op>, n: nat, q: Query, k: Key, m: Measure)
    requires n <= |ops| && Fits(ops, n, q)
    ensures RowsAt(EverIngested(ops, n), q, m)(k) ==
            MergedAt(StoreAfter(ops, n), q, m)(k) + RowsAt(StoreAfter(ops, n).raw, q, m)(k)
  {
    if Picked(q, k) { HistoryConserves(ops, n, k, m, UtilPeak); }
  }

  /** Below the boundary, merged rows and raw rows not read add up to what was ingested. */
  lemma OldAddsUp(ops: seq<Op>, n: nat, keys: seq<Key>, q: Query, m: Measure)
    requires n <= |ops| && Lists(keys, StoreAfter(ops, n).rollups) && Fits(ops, n, q)
    requires q.boundary % HOUR == 0 && Clean(q)
    requires m.Samples? || m.UtilSum?
    ensures var s := StoreAfter(ops, n);
            PointSum(MergedPoints(keys, s.rollups, q), m) + Sum(s.raw, AskedBelow(q), m) ==
            Sum(EverIngested(ops, n), AskedBelow(q), m)
  {
    var s, all := StoreAfter(ops, n), EverIngested(ops, n);
    var c := Cover(keys, all);
    var cover := Cover(c, s.raw);
    CoverAddsNoPoint(keys, all, s.rollups, q);
    CoverAddsNoPoint(c, s.raw, s.rollups, q);
    MergedPointsSum(cover, s, q, m);
    forall i | 0 <= i < |all| ensures KeyOf(all[i]) in cover { assert KeyOf(all[i]) in c; }
    SumByHour(all, cover, q, m);
    AskedByHour(all, cover, q, m);
    SumByHour(s.raw, cover, q, m);
    AskedByHour(s.raw, cover, q, m);
    forall k | k in cover ensures RowsAt(all, q, m)(k) == MergedAt(s, q, m)(k) + RowsAt(s.raw, q, m)(k) {
      HourAddsUp(ops, n, q, k, m);
    }
    KeySumAdds(cover, RowsAt(all, q, m), MergedAt(s, q, m), RowsAt(s.raw, q, m));
  }

  /** On clean windows the points read, and the raw rows below the boundary that are not read, add
      up to all samples ever ingested in the window: no overlap, and no other gap. */
  lemma PointsAddUp(ops: seq<Op>, n: nat, keys: seq<Key>, q: Query, m: Measure)
    requires n <= |ops| && Lists(keys, StoreAfter(ops, n).rollups) && Fits(ops, n, q)
    requires q.boundary % HOUR == 0 && Clean(q)
    requires m.Samples? || m.UtilSum?
    ensures var s := StoreAfter(ops, n);
            PointSum(Points(s, keys, q), m) + Sum(s.raw, AskedBelow(q), m) == Sum(EverIngested(ops, n), Asked(q), m)
  {
    var s, all := StoreAfter(ops, n), EverIngested(ops, n);
    OldAddsUp(ops, n, keys, q, m);
    RecentIsRaw(ops, n, q, m);
    RawPointsSum(s.raw, q, m);
    RawPointsSum(all, q, m);
    PointsAppend(RawPoints(s.raw, q), MergedPoints(keys, s.rollups, q), m);
  }

  /** The reader counts every sample of its window exactly when no raw row of the window is still
      waiting below the boundary. */
  lemma CompleteWhenNoneWaits(ops: seq<Op>, n: nat, keys: seq<Key>, q: Query)
    requires n <= |ops| && Lists(keys, StoreAfter(ops, n).rollups) && Fits(ops, n, q)
    requires q.boundary % HOUR == 0 && Clean(q)
    ensures var s := StoreAfter(ops, n);
            Weight(Points(s, keys, q)) == Count(EverIngested(ops, n), Asked(q)) as real <==>
            Count(s.raw, AskedBelow(q)) == 0
  {
    PointsAddUp(ops, n, keys, q, Samples);
    WholeNumbers(StoreAfter(ops, n).raw, AskedBelow(q));
    WholeNumbers(EverIngested(ops, n), Asked(q));
  }

  /** The mean utilization of the samples a query asks for. */
  function DirectMean(all: seq<Row>, q: Query): Option<real> {
    if Count(all, Asked(q)) == 0 then None else Some(Sum(all, Asked(q), UtilSum) / Count(all, Asked(q)) as real)
  }

  lemma {:induction false} NoneWaits(rows: seq<Row>, b: Time, q: Query)
    requires q.boundary <= b
    ensures Count(From(rows, b), AskedBelow(q)) == 0
  {
    if rows != [] {
      var n := |rows| - 1;
      NoneWaits(rows[..n], b, q);
      if rows[n].ts < b { assert From(rows, b) == From(rows[..n], b); }
      else {
        var kept := From(rows, b);
        assert kept[..|kept| - 1] == From(rows[..n], b) && kept[|kept| - 1] == rows[n];
      }
    }
  }

  /** The history ends with a sweep at the query's own boundary. */
  predicate JustSwept(ops: seq<Op>, n: nat, q: Query) {
    0 < n <= |ops| && ops[n - 1].Swept? && ops[n - 1].boundary == q.boundary
  }

  /** Both sums a query forms are those of the original samples. */
  predicate ReadsRight(ops: seq<Op>, n: nat, keys: seq<Key>, q: Query)
    requires n <= |ops|
  {
    var points, all := Points(StoreAfter(ops, n), keys, q), EverIngested(ops, n);
    Weight(points) == Count(all, Asked(q)) as real && Weighted(points) == Sum(all, Asked(q), UtilSum)
  }

  lemma RightAfterSweep(ops: seq<Op>, n: nat, keys: seq<Key>, q: Query)
    requires JustSwept(ops, n, q) && Lists(keys, StoreAfter(ops, n).rollups) && Fits(ops, n, q)
    requires q.boundary % HOUR == 0 && Clean(q)
    ensures ReadsRight(ops, n, keys, q)
  {
    var s := StoreAfter(ops, n);
    NoneWaits(StoreAfter(ops, n - 1).raw, q.boundary, q);
    NoneCounted(s.raw, AskedBelow(q), UtilSum, UtilPeak);
    NoneCounted(s.raw, AskedBelow(q), Samples, UtilPeak);
    PointsAddUp(ops, n, keys, q, UtilSum);
    PointsAddUp(ops, n, keys, q, Samples);
    WholeNumbers(EverIngested(ops, n), Asked(q));
  }

  /** Right after a sweep, the sample-weighted mean over raw and merged rows is the mean of all the
      original samples, on every clean window whose hours are retained. */
  lemma MeanRightAfterSweep(ops: seq<Op>, n: nat, keys: seq<Key>, q: Query)
    requires JustSwept(ops, n, q) && Lists(keys, StoreAfter(ops, n).rollups) && Fits(ops, n, q)
    requires q.boundary % HOUR == 0 && Clean(q)
    ensures Mean(Points(StoreAfter(ops, n), keys, q)) == DirectMean(EverIngested(ops, n), q)
  {
    RightAfterSweep(ops, n, keys, q);
  }

  // ----- exactly which windows are read right

  /** A sample on the ragged edge of a window, and its history: it arrives, and is swept. */
  function EdgeSample(q: Query, g: GpuId): Row {
    Row(g, if q.from % HOUR != 0 && q.from < q.boundary then q.from else q.to + 1, 0.0, 0.0, 0.0, 0.0, 0)
  }

  function EdgeHistory(q: Query, g: GpuId): seq<Op> {
    [Ingested([EdgeSample(q, g)]), Swept(q.boundary, q.from - HOUR)]
  }

  /** The edge sample is shown by its own time or by its hour, but not by both. */
  lemma EdgeShows(q: Query, g: GpuId)
    requires q.boundary % HOUR == 0 && !Clean(q) && q.from <= q.to
    ensures var t := EdgeSample(q, g).ts;
            q.from - HOUR <= HourOf(t) <= t < q.boundary && (Shown(q, t) <==> !Shown(q, HourOf(t)))
  {
    var t := EdgeSample(q, g).ts;
    assert t - HOUR < HourOf(t) <= t && HourOf(t) % HOUR == 0;
    if t == q.from {
      assert HourOf(t) != t;
    } else {
      AlignedStart(q.from, t);
    }
  }

  /** For every window that is not clean there is a sample that a reader, right after the sweep
      that merged it, wrongly drops or wrongly counts. */
  lemma UncleanMisleads(q: Query, g: GpuId)
    requires q.boundary % HOUR == 0 && !Clean(q) && q.from <= q.to && q.scope(g)
    ensures var ops, keys := EdgeHistory(q, g), [KeyOf(EdgeSample(q, g))];
            JustSwept(ops, 2, q) && Fits(ops, 2, q) && Lists(keys, StoreAfter(ops, 2).rollups) &&
            !ReadsRight(ops, 2, keys, q)
  {
    var r, ops := EdgeSample(q, g), EdgeHistory(q, g);
    EdgeShows(q, g);
    LoneRow(r, q.boundary, q.from - HOUR, ops);
    OneRow(r, Asked(q));
    OneMerged(StoreAfter(ops, 2), KeyOf(r), q);
  }

  /** Whatever was ingested and swept, the reader is right after a sweep at its own boundary. */
  ghost predicate AlwaysRight(q: Query) {
    forall ops, n: nat, keys | JustSwept(ops, n, q) && Fits(ops, n, q) && Lists(keys, StoreAfter(ops, n).rollups) ::
      ReadsRight(ops, n, keys, q)
  }

  lemma {:induction false} EmptyWindow(rows: seq<Row>, keys: seq<Key>, rollups: Rollups, q: Query)
    requires q.from > q.to
    ensures RawPoints(rows, q) == [] && Count(rows, Asked(q)) == 0
    ensures MergedPoints(keys, rollups, q) == []
    decreases |rows| + |keys|
  {
    if rows != [] { EmptyWindow(rows[..|rows| - 1], keys, rollups, q); }
    else if keys != [] { EmptyWindow(rows, keys[..|keys| - 1], rollups, q); }
  }

  /** The exact condition: a query that asks for anything is read right on every swept history it
      fits if and only if its window is clean. */
  lemma RightExactlyWhenClean(q: Query, g: GpuId)
    requires q.boundary % HOUR == 0 && q.scope(g)
    ensures AlwaysRight(q) <==> q.from > q.to || Clean(q)
  {
    if q.from <= q.to && !Clean(q) {
      UncleanMisleads(q, g);
    } else {
      forall ops, n: nat, keys
        | JustSwept(ops, n, q) && Fits(ops, n, q) && Lists(keys, StoreAfter(ops, n).rollups)
        ensures ReadsRight(ops, n, keys, q)
      {
        if q.from > q.to {
          var s, all := StoreAfter(ops, n), EverIngested(ops, n);
          EmptyWindow(s.raw, keys, s.rollups, q);
          EmptyWindow(all, keys, s.rollups, q);
          NoneCounted(all, Asked(q), UtilSum, UtilPeak);
        } else {
          RightAfterSweep(ops, n, keys, q);
        }
      }
    }
  }

  lemma OneMerged(s: Store, k: Key, q: Query)
    requires s.raw == [] && s.rollups.Keys == {k} && s.rollups[k].count == 1 && k.hour < q.boundary
    ensures Weight(Points(s, [k], q)) == if Picked(q, k) then 1.0 else 0.0
  {
    assert [k][..0] == [] && RawPoints(s.raw, q) == [] && MergedPoints([], s.rollups, q) == [];
    var p := Point(s.rollups[k].avgUtil, 1.0);
    assert Points(s, [k], q) == if Picked(q, k) then [p] else [];
    assert [p][..0] == [];
  }

  lemma AlignedStart(from: Time, t: Time)
    requires from % HOUR == 0 && from <= t
    ensures from <= HourOf(t)
  {
    var a, h := from / HOUR, t / HOUR;
    assert from == a * HOUR && HourOf(t) == h * HOUR && t < (h + 1) * HOUR;
  }

  lemma OneRow(r: Row, keep: Keep)
    ensures Count([r], keep) == if keep(r) then 1 else 0
  {
    assert [r][..0] == [];
  }

  lemma LoneRow(r: Row, b: Time, oldest: Time, ops: seq<Op>)
    requires r.ts < b && HourOf(r.ts) >= oldest && ops == [Ingested([r]), Swept(b, oldest)]
    ensures var s := StoreAfter(ops, 2);
            EverIngested(ops, 2) == [r] && s.raw == [] && s.rollups.Keys == {KeyOf(r)} && s.rollups[KeyOf(r)].count == 1
  {
    var s1, k := StoreAfter(ops, 1), KeyOf(r);
    assert StoreAfter(ops, 0) == EMPTY_STORE && EverIngested(ops, 0) == [] && EverIngested(ops, 1) == [r];
    assert s1 == Store([r], map[]);
    assert s1.raw[0] == r && k in KeysBelow(s1.raw, b);
    assert [r][..0] == [];
    OneRow(r, InBelow(k, b));
    assert From([r], b) == [];
  }
}
