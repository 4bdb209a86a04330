/** Retention: raw samples are merged into one row per GPU and hour, then deleted; what the
    merged row says, and what a reader of raw and merged rows together sees. */
module Rollup {
  import opened Tables

  const HOUR: Time := 60 * MINUTE
  const DAY: Time := 24 * HOUR
  const BATCH: nat := 5000

  /** A gpu_metrics row. */
  datatype Row = Row(gpu: GpuId, ts: Time, util: real, mem: real, power: real, temp: real, ecc: int)

  datatype Key = Key(gpu: GpuId, hour: Time)

  /** A gpu_metrics_hourly row. */
  datatype Hourly = Hourly(
    count: nat,
    avgUtil: real, maxUtil: real,
    avgMem: real, maxMem: real,
    avgPower: real, maxTemp: real,
    ecc: int)

  type Rollups = map<Key, Hourly>

  datatype Store = Store(raw: seq<Row>, rollups: Rollups)

  function HourOf(t: Time): Time { t - t % HOUR }

  /** The start of the hour that t lies in. */
  lemma HourHolds(t: Time)
    ensures HourOf(t) % (3600 * SECOND) == 0 && HourOf(t) <= t < HourOf(t) + 3600 * SECOND
  {
  }

  function KeyOf(r: Row): Key { Key(r.gpu, HourOf(r.ts)) }

  // ----- aggregates over rows

  type Keep = Row -> bool

  /** What adds up over rows, and what is maximized. */
  datatype Measure = Samples | UtilSum | MemSum | PowerSum | EccSum
  datatype Peak = UtilPeak | MemPeak | TempPeak

  function Value(r: Row, m: Measure): real {
    match m
    case Samples => 1.0
    case UtilSum => r.util
    case MemSum => r.mem
    case PowerSum => r.power
    case EccSum => r.ecc as real
  }

  function PeakValue(r: Row, m: Peak): real {
    match m
    case UtilPeak => r.util
    case MemPeak => r.mem
    case TempPeak => r.temp
  }

  function Sum(rows: seq<Row>, keep: Keep, m: Measure): real {
    if rows == [] then 0.0
    else Sum(rows[..|rows| - 1], keep, m) + if keep(rows[|rows| - 1]) then Value(rows[|rows| - 1], m) else 0.0
  }

  function Greatest(a: Option<real>, b: Option<real>): Option<real> {
    if a.None? then b else if b.None? then a else if a.value >= b.value then a else b
  }

  function Max(rows: seq<Row>, keep: Keep, m: Peak): Option<real> {
    if rows == [] then None
    else Greatest(Max(rows[..|rows| - 1], keep, m),
                  if keep(rows[|rows| - 1]) then Some(PeakValue(rows[|rows| - 1], m)) else None)
  }

  function Count(rows: seq<Row>, keep: Keep): nat {
    if rows == [] then 0
    else Count(rows[..|rows| - 1], keep) + if keep(rows[|rows| - 1]) then 1 else 0
  }

  function Ecc(rows: seq<Row>, keep: Keep): int {
    if rows == [] then 0
    else Ecc(rows[..|rows| - 1], keep) + if keep(rows[|rows| - 1]) then rows[|rows| - 1].ecc else 0
  }

  lemma {:induction false} WholeNumbers(rows: seq<Row>, keep: Keep)
    ensures Sum(rows, keep, Samples) == Count(rows, keep) as real
    ensures Sum(rows, keep, EccSum) == Ecc(rows, keep) as real
  {
    if rows != [] { WholeNumbers(rows[..|rows| - 1], keep); }
  }

  lemma {:induction false} NoneCounted(rows: seq<Row>, keep: Keep, m: Measure, q: Peak)
    ensures Count(rows, keep) == 0 ==> Sum(rows, keep, m) == 0.0
    ensures Count(rows, keep) == 0 <==> Max(rows, keep, q).None?
  {
    if rows != [] { NoneCounted(rows[..|rows| - 1], keep, m, q); }
  }

  // ----- the merge

  /** The aggregate the INSERT selects for one group: count, averages, maxima, ECC sum. */
  function Aggregate(rows: seq<Row>, keep: Keep): Hourly
    requires Count(rows, keep) > 0
  {
    var n := Count(rows, keep);
    Hourly(n,
           Mean(Sum(rows, keep, UtilSum), n), Max(rows, keep, UtilPeak).GetOr(0.0),
           Mean(Sum(rows, keep, MemSum), n), Max(rows, keep, MemPeak).GetOr(0.0),
           Mean(Sum(rows, keep, PowerSum), n), Max(rows, keep, TempPeak).GetOr(0.0),
           Ecc(rows, keep))
  }

  /** One sample makes an hour of its own columns. */
  lemma AggregateOfOne(r: Row, keep: Keep)
    requires keep(r)
    ensures Count([r], keep) == 1
    ensures Aggregate([r], keep) == Hourly(1, r.util, r.util, r.mem, r.mem, r.power, r.temp, r.ecc)
  {
    assert [r][..0] == [] && [] + [r] == [r];
    AddRow([], r, keep, UtilSum, UtilPeak);
    AddRow([], r, keep, MemSum, MemPeak);
    AddRow([], r, keep, PowerSum, TempPeak);
    assert Ecc([r], keep) == r.ecc && Count([r], keep) == 1;
    assert Mean(r.util, 1) == r.util && Mean(r.mem, 1) == r.mem && Mean(r.power, 1) == r.power;
  }

  function MergeAvg(avg: real, n: nat, other: real, m: nat): real
    requires n + m > 0
  {
    (avg * n as real + other * m as real) / (n + m) as real
  }

  function MaxOf(a: real, b: real): real { if a >= b then a else b }

  /** The ON CONFLICT branch. */
  function Merge(a: Hourly, b: Hourly): Hourly
    requires a.count + b.count > 0
  {
    Hourly(a.count + b.count,
           MergeAvg(a.avgUtil, a.count, b.avgUtil, b.count), MaxOf(a.maxUtil, b.maxUtil),
           MergeAvg(a.avgMem, a.count, b.avgMem, b.count), MaxOf(a.maxMem, b.maxMem),
           MergeAvg(a.avgPower, a.count, b.avgPower, b.count), MaxOf(a.maxTemp, b.maxTemp),
           a.ecc + b.ecc)
  }

  /** What an hourly row stands for, measure by measure. */
  function Total(h: Hourly, m: Measure): real {
    match m
    case Samples => h.count as real
    case UtilSum => h.avgUtil * h.count as real
    case MemSum => h.avgMem * h.count as real
    case PowerSum => h.avgPower * h.count as real
    case EccSum => h.ecc as real
  }

  function Top(h: Hourly, m: Peak): real {
    match m
    case UtilPeak => h.maxUtil
    case MemPeak => h.maxMem
    case TempPeak => h.maxTemp
  }

  lemma DivMul(x: real, n: real)
    requires n > 0.0
    ensures x / n * n == x
  {
  }

  lemma MergedAvg(avg: real, n: nat, other: real, m: nat)
    requires n + m > 0
    ensures MergeAvg(avg, n, other, m) * (n + m) as real == avg * n as real + other * m as real
  {
    DivMul(avg * n as real + other * m as real, (n + m) as real);
  }

  /** The weighted merge adds up, and its maxima are the greater ones. */
  lemma MergeAdds(a: Hourly, b: Hourly, m: Measure, q: Peak)
    requires a.count + b.count > 0
    ensures Total(Merge(a, b), m) == Total(a, m) + Total(b, m)
    ensures Some(Top(Merge(a, b), q)) == Greatest(Some(Top(a, q)), Some(Top(b, q)))
  {
    MergedAvg(a.avgUtil, a.count, b.avgUtil, b.count);
    MergedAvg(a.avgMem, a.count, b.avgMem, b.count);
    MergedAvg(a.avgPower, a.count, b.avgPower, b.count);
  }

  /** The merge column by column: counts and ECC errors add, averages weigh by their counts, maxima
      are the greater ones. */
  lemma MergeColumns(a: Hourly, b: Hourly)
    requires a.count + b.count > 0
    ensures var h := Merge(a, b);
            && h.count == a.count + b.count && h.ecc == a.ecc + b.ecc
            && h.avgUtil * h.count as real == a.avgUtil * a.count as real + b.avgUtil * b.count as real
            && h.avgMem * h.count as real == a.avgMem * a.count as real + b.avgMem * b.count as real
            && h.avgPower * h.count as real == a.avgPower * a.count as real + b.avgPower * b.count as real
            && h.maxUtil >= a.maxUtil && h.maxUtil >= b.maxUtil && h.maxUtil in {a.maxUtil, b.maxUtil}
            && h.maxMem >= a.maxMem && h.maxMem >= b.maxMem && h.maxMem in {a.maxMem, b.maxMem}
            && h.maxTemp >= a.maxTemp && h.maxTemp >= b.maxTemp && h.maxTemp in {a.maxTemp, b.maxTemp}
  {
    MergedAvg(a.avgUtil, a.count, b.avgUtil, b.count);
    MergedAvg(a.avgMem, a.count, b.avgMem, b.count);
    MergedAvg(a.avgPower, a.count, b.avgPower, b.count);
  }

  function Mean(sum: real, n: nat): (avg: real)
    requires n > 0
    ensures avg * n as real == sum
  {
    DivMul(sum, n as real);
    sum / n as real
  }

  /** What the averages of an aggregate stand for, given what its group sums to. */
  lemma AggregateTotals(rows: seq<Row>, keep: Keep, m: Measure, q: Peak)
    requires Count(rows, keep) > 0
    ensures Total(Aggregate(rows, keep), m) == Sum(rows, keep, m)
    ensures Some(Top(Aggregate(rows, keep), q)) == Max(rows, keep, q)
  {
    var n := Count(rows, keep);
    WholeNumbers(rows, keep);
    MeanTotals(n, Sum(rows, keep, UtilSum), Sum(rows, keep, MemSum), Sum(rows, keep, PowerSum), Aggregate(rows, keep));
    AggregateTops(rows, keep, q);
  }

  lemma MeanTotals(n: nat, util: real, mem: real, power: real, h: Hourly)
    requires n > 0 && h.count == n
    requires h.avgUtil == Mean(util, n) && h.avgMem == Mean(mem, n) && h.avgPower == Mean(power, n)
    ensures Total(h, UtilSum) == util && Total(h, MemSum) == mem && Total(h, PowerSum) == power
  {
  }

  lemma AggregateTops(rows: seq<Row>, keep: Keep, q: Peak)
    requires Count(rows, keep) > 0
    ensures Some(Top(Aggregate(rows, keep), q)) == Max(rows, keep, q)
  {
    NoneCounted(rows, keep, Samples, q);
  }

  /** An hourly row is determined by what it stands for. */
  lemma SameHourly(a: Hourly, b: Hourly)
    requires a.count > 0
    requires forall m :: Total(a, m) == Total(b, m)
    requires forall q :: Top(a, q) == Top(b, q)
    ensures a == b
  {
    assert Total(a, Samples) == Total(b, Samples) && Total(a, EccSum) == Total(b, EccSum);
    assert Total(a, UtilSum) == Total(b, UtilSum) && Total(a, MemSum) == Total(b, MemSum) &&
           Total(a, PowerSum) == Total(b, PowerSum);
    Cancel(a.avgUtil, b.avgUtil, a.count as real);
    Cancel(a.avgMem, b.avgMem, a.count as real);
    Cancel(a.avgPower, b.avgPower, a.count as real);
    assert Top(a, UtilPeak) == Top(b, UtilPeak) && Top(a, MemPeak) == Top(b, MemPeak) &&
           Top(a, TempPeak) == Top(b, TempPeak);
  }

  lemma Cancel(x: real, y: real, n: real)
    requires n > 0.0 && x * n == y * n
    ensures x == y
  {
    assert x * n / n == x && y * n / n == y;
  }

  // ----- the sweep

  function In(k: Key): Keep { (r: Row) => KeyOf(r) == k }
  function InBelow(k: Key, b: Time): Keep { (r: Row) => KeyOf(r) == k && r.ts < b }

  function KeysBelow(rows: seq<Row>, b: Time): set<Key> { set i | 0 <= i < |rows| && rows[i].ts < b :: KeyOf(rows[i]) }

  lemma {:induction false} KeysHaveRows(rows: seq<Row>, b: Time, k: Key)
    ensures k in KeysBelow(rows, b) <==> Count(rows, InBelow(k, b)) > 0
  {
    if rows != [] {
      var n := |rows| - 1;
      KeysHaveRows(rows[..n], b, k);
      if k in KeysBelow(rows, b) {
        var i :| 0 <= i < |rows| && rows[i].ts < b && KeyOf(rows[i]) == k;
        if i < n { assert rows[..n][i] == rows[i]; }
      }
      if k in KeysBelow(rows[..n], b) {
        var i :| 0 <= i < n && rows[..n][i].ts < b && KeyOf(rows[..n][i]) == k;
        assert rows[i].ts < b && KeyOf(rows[i]) == k;
      }
    }
  }

  /** What the upsert leaves at one key. */
  function Upserted(rollups: Rollups, rows: seq<Row>, b: Time, k: Key): Hourly
    requires k in KeysBelow(rows, b)
  {
    KeysHaveRows(rows, b, k);
    var group := Aggregate(rows, InBelow(k, b));
    if k in rollups then Merge(rollups[k], group) else group
  }

  function RollUp(s: Store, b: Time): Store {
    s.(rollups := map k | k in s.rollups.Keys + KeysBelow(s.raw, b) ::
                    if k in KeysBelow(s.raw, b) then Upserted(s.rollups, s.raw, b, k) else s.rollups[k])
  }

  /** The rows at or after the cutoff, in order. */
  function From(rows: seq<Row>, b: Time): seq<Row> {
    if rows == [] then []
    else From(rows[..|rows| - 1], b) + if rows[|rows| - 1].ts < b then [] else [rows[|rows| - 1]]
  }

  function AgeOut(rollups: Rollups, oldest: Time): Rollups {
    map k | k in rollups && k.hour >= oldest :: rollups[k]
  }

  function Sweep(s: Store, b: Time, oldest: Time): Store {
    Store(From(s.raw, b), AgeOut(RollUp(s, b).rollups, oldest))
  }

  // ----- what a store says of one hour: its merged row and its raw rows together

  function EntryTotal(rollups: Rollups, k: Key, m: Measure): real { if k in rollups then Total(rollups[k], m) else 0.0 }
  function EntryTop(rollups: Rollups, k: Key, q: Peak): Option<real> {
    if k in rollups then Some(Top(rollups[k], q)) else None
  }

  function HourTotal(s: Store, k: Key, m: Measure): real { EntryTotal(s.rollups, k, m) + Sum(s.raw, In(k), m) }
  function HourTop(s: Store, k: Key, q: Peak): Option<real> {
    Greatest(EntryTop(s.rollups, k, q), Max(s.raw, In(k), q))
  }

  lemma AddRow(rows: seq<Row>, r: Row, keep: Keep, m: Measure, q: Peak)
    ensures Sum(rows + [r], keep, m) == Sum(rows, keep, m) + if keep(r) then Value(r, m) else 0.0
    ensures Max(rows + [r], keep, q) == Greatest(Max(rows, keep, q), if keep(r) then Some(PeakValue(r, q)) else None)
  {
    assert (rows + [r])[..|rows + [r]| - 1] == rows;
  }

  lemma {:induction false} SumSplit(rows: seq<Row>, b: Time, k: Key, m: Measure)
    ensures Sum(rows, In(k), m) == Sum(rows, InBelow(k, b), m) + Sum(From(rows, b), In(k), m)
  {
    if rows != [] {
      var n := |rows| - 1;
      SumSplit(rows[..n], b, k, m);
      if rows[n].ts >= b { AddRow(From(rows[..n], b), rows[n], In(k), m, UtilPeak); }
      else { assert From(rows, b) == From(rows[..n], b); }
    }
  }

  lemma GreatestLaws(a: Option<real>, b: Option<real>, c: Option<real>)
    ensures Greatest(a, Greatest(b, c)) == Greatest(Greatest(a, b), c)
    ensures Greatest(a, b) == Greatest(b, a)
    ensures Greatest(a, None) == a
  {
  }

  /** Adding one row to the part below the boundary, or to the part from it on. */
  lemma GreatestSplit(below: Option<real>, from: Option<real>, x: Option<real>)
    ensures Greatest(Greatest(below, from), x) == Greatest(Greatest(below, x), from)
    ensures Greatest(Greatest(below, from), x) == Greatest(below, Greatest(from, x))
    ensures Greatest(x, None) == x
  {
  }

  lemma {:induction false} MaxSplit(rows: seq<Row>, b: Time, k: Key, q: Peak)
    ensures Max(rows, In(k), q) == Greatest(Max(rows, InBelow(k, b), q), Max(From(rows, b), In(k), q))
  {
    if rows != [] {
      var r, front := rows[|rows| - 1], rows[..|rows| - 1];
      MaxSplit(front, b, k, q);
      var x := if KeyOf(r) == k then Some(PeakValue(r, q)) else None;
      var y := if r.ts < b then x else None;
      assert Max(rows, In(k), q) == Greatest(Max(front, In(k), q), x);
      assert Max(rows, InBelow(k, b), q) == Greatest(Max(front, InBelow(k, b), q), y);
      GreatestSplit(Max(front, InBelow(k, b), q), Max(From(front, b), In(k), q), x);
      GreatestSplit(None, None, Max(front, InBelow(k, b), q));
      if r.ts >= b { AddRow(From(front, b), r, In(k), Samples, q); }
      else { assert From(rows, b) == From(front, b); }
    }
  }

  lemma {:induction false} SumAppend(x: seq<Row>, y: seq<Row>, keep: Keep, m: Measure)
    ensures Sum(x + y, keep, m) == Sum(x, keep, m) + Sum(y, keep, m)
  {
    if y == [] {
      assert x + y == x;
    } else {
      assert (x + y)[..|x + y| - 1] == x + y[..|y| - 1];
      SumAppend(x, y[..|y| - 1], keep, m);
    }
  }

  lemma {:induction false} MaxAppend(x: seq<Row>, y: seq<Row>, keep: Keep, q: Peak)
    ensures Max(x + y, keep, q) == Greatest(Max(x, keep, q), Max(y, keep, q))
  {
    if y == [] {
      assert x + y == x;
    } else {
      assert (x + y)[..|x + y| - 1] == x + y[..|y| - 1];
      MaxAppend(x, y[..|y| - 1], keep, q);
    }
  }

  /** Merging adds to an hour exactly its raw rows below the boundary. */
  lemma RollUpAdds(s: Store, b: Time, k: Key, m: Measure, q: Peak)
    ensures var t := RollUp(s, b);
            EntryTotal(t.rollups, k, m) == EntryTotal(s.rollups, k, m) + Sum(s.raw, InBelow(k, b), m) &&
            EntryTop(t.rollups, k, q) == Greatest(EntryTop(s.rollups, k, q), Max(s.raw, InBelow(k, b), q))
  {
    KeysHaveRows(s.raw, b, k);
    if k in KeysBelow(s.raw, b) {
      AggregateTotals(s.raw, InBelow(k, b), m, q);
      if k in s.rollups { MergeAdds(s.rollups[k], Aggregate(s.raw, InBelow(k, b)), m, q); }
    } else {
      NoneCounted(s.raw, InBelow(k, b), m, q);
    }
  }

  /** One sweep keeps, for every hour that does not age out, merged and raw rows together. */
  lemma SweepConserves(s: Store, b: Time, oldest: Time, k: Key, m: Measure, q: Peak)
    requires k.hour >= oldest
    ensures HourTotal(Sweep(s, b, oldest), k, m) == HourTotal(s, k, m)
    ensures HourTop(Sweep(s, b, oldest), k, q) == HourTop(s, k, q)
  {
    RollUpAdds(s, b, k, m, q);
    SumSplit(s.raw, b, k, m);
    MaxSplit(s.raw, b, k, q);
  }

  /** A crash after the merge at b and before the deletion: the next sweep, at a boundary b2 no
      earlier, merges the surviving rows again along with whatever arrived meanwhile.  Against a
      single merge at b2, every measure is too high by what the first merge added, so it is right
      exactly when that was nothing. */
  lemma ReRollCountsTwice(s: Store, more: seq<Row>, b: Time, b2: Time, k: Key, m: Measure)
    requires b <= b2
    ensures var once, twice := RollUp(s.(raw := s.raw + more), b2), RollUp(RollUp(s, b).(raw := s.raw + more), b2);
            && EntryTotal(twice.rollups, k, m) == EntryTotal(once.rollups, k, m) + Sum(s.raw, InBelow(k, b), m)
            && (EntryTotal(twice.rollups, k, m) == EntryTotal(once.rollups, k, m) <==>
              Sum(s.raw, InBelow(k, b), m) == 0.0)
  {
    RollUpAdds(s, b, k, m, UtilPeak);
    RollUpAdds(s.(raw := s.raw + more), b2, k, m, UtilPeak);
    RollUpAdds(RollUp(s, b).(raw := s.raw + more), b2, k, m, UtilPeak);
  }

  /** In particular the sample count is right exactly when no row was merged, and the ECC sum exactly
      when the merged rows had no errors in sum. */
  lemma ReRollCounts(s: Store, more: seq<Row>, b: Time, b2: Time, k: Key)
    requires b <= b2
    ensures var once, twice := RollUp(s.(raw := s.raw + more), b2), RollUp(RollUp(s, b).(raw := s.raw + more), b2);
            && (EntryTotal(twice.rollups, k, Samples) == EntryTotal(once.rollups, k, Samples) <==>
                Count(s.raw, InBelow(k, b)) == 0)
            && (EntryTotal(twice.rollups, k, EccSum) == EntryTotal(once.rollups, k, EccSum) <==>
                Ecc(s.raw, InBelow(k, b)) == 0)
  {
    ReRollCountsTwice(s, more, b, b2, k, Samples);
    ReRollCountsTwice(s, more, b, b2, k, EccSum);
    WholeNumbers(s.raw, InBelow(k, b));
  }

  /** Rows ingested between the merge and the deletion are deleted unmerged: the sweep conserves
      an hour exactly when none of them lies below the boundary. */
  lemma LateRowsAreLost(s: Store, late: seq<Row>, b: Time, k: Key)
    ensures var t := Store(From(s.raw + late, b), RollUp(s, b).rollups);
            HourTotal(t, k, Samples) == HourTotal(s.(raw := s.raw + late), k, Samples) <==>
              Count(late, InBelow(k, b)) == 0
  {
    RollUpAdds(s, b, k, Samples, UtilPeak);
    SumSplit(s.raw + late, b, k, Samples);
    SumAppend(s.raw, late, InBelow(k, b), Samples);
    WholeNumbers(late, InBelow(k, b));
  }

  // ----- histories

  /** What happens to the store: samples arrive, or a sweep runs from start to end. */
  datatype Op = Ingested(rows: seq<Row>) | Swept(boundary: Time, oldest: Time)

  const EMPTY_STORE := Store([], map[])

  function StoreAfter(ops: seq<Op>, n: nat): Store
    requires n <= |ops|
  {
    if n == 0 then EMPTY_STORE
    else
      var s := StoreAfter(ops, n - 1);
      match ops[n - 1]
      case Ingested(rows) => s.(raw := s.raw + rows)
      case Swept(b, oldest) => Sweep(s, b, oldest)
  }

  function EverIngested(ops: seq<Op>, n: nat): seq<Row>
    requires n <= |ops|
  {
    if n == 0 then []
    else EverIngested(ops, n - 1) + if ops[n - 1].Ingested? then ops[n - 1].rows else []
  }

  /** No sweep so far has aged the hour out of the rollups. */
  predicate Retained(ops: seq<Op>, n: nat, k: Key)
    requires n <= |ops|
  {
    forall i | 0 <= i < n && ops[i].Swept? :: k.hour >= ops[i].oldest
  }

  /** However an hour's samples are split over sweeps, its merged row and its remaining raw rows
      together say what all its samples ever ingested say. */
  lemma {:induction false} HistoryConserves(ops: seq<Op>, n: nat, k: Key, m: Measure, q: Peak)
    requires n <= |ops| && Retained(ops, n, k)
    ensures HourTotal(StoreAfter(ops, n), k, m) == Sum(EverIngested(ops, n), In(k), m)
    ensures HourTop(StoreAfter(ops, n), k, q) == Max(EverIngested(ops, n), In(k), q)
    decreases n
  {
    if n > 0 {
      HistoryConserves(ops, n - 1, k, m, q);
      var s := StoreAfter(ops, n - 1);
      if ops[n - 1].Ingested? {
        IngestAdds(s, EverIngested(ops, n - 1), ops[n - 1].rows, k, m, q);
      } else {
        SweepConserves(s, ops[n - 1].boundary, ops[n - 1].oldest, k, m, q);
        assert EverIngested(ops, n) == EverIngested(ops, n - 1);
      }
    }
  }

  lemma IngestAdds(s: Store, all: seq<Row>, rows: seq<Row>, k: Key, m: Measure, q: Peak)
    requires HourTotal(s, k, m) == Sum(all, In(k), m) && HourTop(s, k, q) == Max(all, In(k), q)
    ensures var t := s.(raw := s.raw + rows);
            HourTotal(t, k, m) == Sum(all + rows, In(k), m) && HourTop(t, k, q) == Max(all + rows, In(k), q)
  {
    SumAppend(s.raw, rows, In(k), m);
    MaxAppend(s.raw, rows, In(k), q);
    SumAppend(all, rows, In(k), m);
    MaxAppend(all, rows, In(k), q);
    GreatestLaws(EntryTop(s.rollups, k, q), Max(s.raw, In(k), q), Max(rows, In(k), q));
  }

  /** Once no raw row of an hour is left, its merged row is the direct aggregate of all samples of
      that hour: count, averages, maxima and ECC sum. */
  lemma RolledUpIsDirect(ops: seq<Op>, n: nat, k: Key)
    requires n <= |ops| && Retained(ops, n, k)
    requires Count(StoreAfter(ops, n).raw, In(k)) == 0 && Count(EverIngested(ops, n), In(k)) > 0
    ensures k in StoreAfter(ops, n).rollups
    ensures StoreAfter(ops, n).rollups[k] == Aggregate(EverIngested(ops, n), In(k))
  {
    var s, all := StoreAfter(ops, n), EverIngested(ops, n);
    forall m, q
      ensures EntryTotal(s.rollups, k, m) == Sum(all, In(k), m) && EntryTop(s.rollups, k, q) == Max(all, In(k), q)
    {
      HistoryConserves(ops, n, k, m, q);
      NoneCounted(s.raw, In(k), m, q);
    }
    NoneCounted(all, In(k), Samples, UtilPeak);
    assert EntryTotal(s.rollups, k, Samples) == Sum(all, In(k), Samples) &&
           EntryTop(s.rollups, k, UtilPeak) == Max(all, In(k), UtilPeak);
    var a, b := s.rollups[k], Aggregate(all, In(k));
    forall m, q ensures Total(a, m) == Total(b, m) && Top(a, q) == Top(b, q) {
      AggregateTotals(all, In(k), m, q);
      assert EntryTotal(s.rollups, k, m) == Sum(all, In(k), m) && EntryTop(s.rollups, k, q) == Max(all, In(k), q);
    }
    forall m ensures Total(a, m) == Total(b, m) {
      assert Total(a, m) == Total(b, m) && Top(a, UtilPeak) == Top(b, UtilPeak);
    }
    forall q ensures Top(a, q) == Top(b, q) { assert Total(a, Samples) == Total(b, Samples) && Top(a, q) == Top(b, q); }
    SameHourly(a, b);
  }
}
