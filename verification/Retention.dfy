/** The retention sweep, statement by statement and batch by batch. */
module Retention {
  import opened Tables
  import opened Rollup

  // ----- the sweep

  datatype Policy = Policy(rawMetrics: Time, rollupMetrics: Time)
  const DEFAULT := Policy(14 * DAY, 365 * DAY)

  datatype Stats = Stats(rolledUpHours: nat, rawDeleted: nat, rollupsDeleted: nat)

  function InForce(p: Policy): Policy { if p.rawMetrics <= 0 then DEFAULT else p }

  /** The raw/merged split of sweep and reader: a whole hour. */
  function Boundary(p: Policy, now: Time): (b: Time)
    ensures b % HOUR == 0
  {
    HourOf(now - InForce(p).rawMetrics)
  }

  function Below(b: Time): Keep { (r: Row) => r.ts < b }

  function TooOld(rollups: Rollups, oldest: Time): set<Key> { set k | k in rollups && k.hour < oldest }

  /** Removes the first n rows below the cutoff. */
  function Without(rows: seq<Row>, b: Time, n: nat): seq<Row> {
    if rows == [] || n == 0 then rows
    else if rows[0].ts < b then Without(rows[1..], b, n - 1)
    else [rows[0]] + Without(rows[1..], b, n)
  }

  lemma {:induction false} Prepend(r: Row, rows: seq<Row>, b: Time)
    ensures From([r] + rows, b) == (if r.ts < b then [] else [r]) + From(rows, b)
    ensures Count([r] + rows, Below(b)) == Count(rows, Below(b)) + if r.ts < b then 1 else 0
  {
    if rows == [] {
      assert [r] + rows == [r] && [r][..0] == [];
    } else {
      var n := |rows| - 1;
      Prepend(r, rows[..n], b);
      assert ([r] + rows)[..|rows|] == [r] + rows[..n] && ([r] + rows)[|rows|] == rows[n];
    }
  }

  /** A batch takes n of the rows below the cutoff and no other. */
  lemma {:induction false} WithoutTakes(rows: seq<Row>, b: Time, n: nat)
    requires n <= Count(rows, Below(b))
    ensures Count(Without(rows, b, n), Below(b)) == Count(rows, Below(b)) - n
    ensures From(Without(rows, b, n), b) == From(rows, b)
  {
    if rows != [] && n > 0 {
      Prepend(rows[0], rows[1..], b);
      assert rows == [rows[0]] + rows[1..];
      if rows[0].ts < b {
        WithoutTakes(rows[1..], b, n - 1);
      } else {
        WithoutTakes(rows[1..], b, n);
        Prepend(rows[0], Without(rows[1..], b, n), b);
      }
    }
  }

  lemma {:induction false} NoneLeft(rows: seq<Row>, b: Time)
    requires Count(rows, Below(b)) == 0
    ensures From(rows, b) == rows
  {
    if rows != [] {
      NoneLeft(rows[..|rows| - 1], b);
      assert rows == rows[..|rows| - 1] + [rows[|rows| - 1]];
    }
  }

  function Known(samples: seq<Row>, gpus: set<GpuId>): seq<Row> {
    if samples == [] then []
    else Known(samples[..|samples| - 1], gpus) +
         if samples[|samples| - 1].gpu in gpus then [samples[|samples| - 1]] else []
  }

  /** Of a GPU in the inventory every sample is kept, as often as it came; of any other none. */
  lemma {:induction false} KnownExactly(samples: seq<Row>, gpus: set<GpuId>, r: Row)
    ensures multiset(Known(samples, gpus))[r] == if r.gpu in gpus then multiset(samples)[r] else 0
  {
    if samples != [] {
      var n := |samples| - 1;
      KnownExactly(samples[..n], gpus, r);
      assert samples == samples[..n] + [samples[n]];
    }
  }

  /** The upsert is done for `done` and for no other key. */
  ghost predicate UpsertedOn(was: Rollups, current: Rollups, rows: seq<Row>, b: Time, done: set<Key>) {
    && done <= KeysBelow(rows, b) && current.Keys == was.Keys + done
    && (forall k | k in done :: current[k] == Upserted(was, rows, b, k))
    && (forall k | k in was && k !in done :: current[k] == was[k])
  }

  lemma UpsertOne(was: Rollups, current: Rollups, rows: seq<Row>, b: Time, done: set<Key>, k: Key)
    requires UpsertedOn(was, current, rows, b, done) && k in KeysBelow(rows, b) && k !in done
    ensures (k in current <==> k in was) && (k in current ==> current[k] == was[k])
    ensures UpsertedOn(was, current[k := Upserted(was, rows, b, k)], rows, b, done + {k})
  {
  }

  lemma UpsertedAll(was: Rollups, current: Rollups, rows: seq<Row>, b: Time)
    requires UpsertedOn(was, current, rows, b, KeysBelow(rows, b))
    ensures Store(rows, current) == RollUp(Store(rows, was), b)
  {
  }

  /** `rest` is still to be scanned; of what was, n rows are taken and `kept` stays. */
  ghost predicate Scanned(was: seq<Row>, kept: seq<Row>, rest: seq<Row>, b: Time, n: nat) {
    && Count(was, Below(b)) == n + Count(rest, Below(b))
    && (forall m: nat :: Without(was, b, n + m) == kept + Without(rest, b, m))
  }

  lemma ScanOne(was: seq<Row>, kept: seq<Row>, rest: seq<Row>, b: Time, n: nat)
    requires Scanned(was, kept, rest, b, n) && rest != []
    ensures if rest[0].ts < b then Scanned(was, kept, rest[1..], b, n + 1)
            else Scanned(was, kept + [rest[0]], rest[1..], b, n)
  {
    var r, tail := rest[0], rest[1..];
    Prepend(r, tail, b);
    assert rest == [r] + tail;
    if r.ts < b {
      forall m: nat ensures Without(was, b, n + 1 + m) == kept + Without(tail, b, m) {
        assert Without(was, b, n + (m + 1)) == kept + Without(rest, b, m + 1);
      }
    } else {
      forall m: nat ensures Without(was, b, n + m) == (kept + [r]) + Without(tail, b, m) {
        assert Without(was, b, n + m) == kept + Without(rest, b, m);
        if m == 0 { assert kept + rest == (kept + [r]) + tail; }
        else { assert kept + ([r] + Without(tail, b, m)) == (kept + [r]) + Without(tail, b, m); }
      }
    }
  }

  /** How long raw samples and merged rows are kept: as asked, or 14 and 365 days when nothing is
      asked for. */
  function RawPeriod(p: Policy): Time { if p.rawMetrics > 0 then p.rawMetrics else 14 * 24 * 3600 * SECOND }

  function RollupPeriod(p: Policy): Time { if p.rawMetrics > 0 then p.rollupMetrics else 365 * 24 * 3600 * SECOND }

  lemma {:induction false} FromKeeps(rows: seq<Row>, b: Time, r: Row)
    ensures r in From(rows, b) <==> r in rows && r.ts >= b
  {
    if rows != [] {
      FromKeeps(rows[..|rows| - 1], b, r);
      assert rows == rows[..|rows| - 1] + [rows[|rows| - 1]];
    }
  }

  /** A sweep deletes no raw sample younger than the retention period, and leaves none older by an hour
      or more; of the merged rows exactly the retained hours stay. */
  lemma KeptByAge(s: Store, p: Policy, now: Time, later: Time)
    ensures var t := Sweep(s, Boundary(p, now), later - InForce(p).rollupMetrics);
            && (forall r | r in t.raw :: r in s.raw && now - r.ts < RawPeriod(p) + 3600 * SECOND)
            && (forall r | r in s.raw && now - r.ts <= RawPeriod(p) :: r in t.raw)
            && (forall k | k in t.rollups :: later - k.hour <= RollupPeriod(p))
            && (forall k | k in s.rollups && later - k.hour <= RollupPeriod(p) :: k in t.rollups)
  {
    var b := Boundary(p, now);
    var t := Sweep(s, b, later - InForce(p).rollupMetrics);
    assert now - RawPeriod(p) - 3600 * SECOND < b <= now - RawPeriod(p);
    forall r ensures r in t.raw <==> r in s.raw && r.ts >= b { FromKeeps(s.raw, b, r); }
  }

  class Telemetry {
    var raw: seq<Row>
    var rollups: Rollups

    constructor ()
      ensures Seen() == EMPTY_STORE
    {
      raw, rollups := [], map[];
    }

    ghost function Seen(): Store
      reads this
    {
      Store(raw, rollups)
    }

    /** Samples of GPUs that are not in the inventory are dropped. */
    method Ingest(samples: seq<Row>, gpus: set<GpuId>)
      modifies `raw
      ensures raw == old(raw) + Known(samples, gpus)
    {
      for i := 0 to |samples|
        invariant raw == old(raw) + Known(samples[..i], gpus)
      {
        assert samples[..i + 1][..i] == samples[..i];
        if samples[i].gpu in gpus { raw := raw + [samples[i]]; }
      }
      assert samples[..|samples|] == samples;
    }

    /** One DELETE with a LIMIT: scans until the batch is full. */
    method DeleteBatch(b: Time) returns (n: nat)
      modifies `raw
      ensures n == if Count(old(raw), Below(b)) < 5000 then Count(old(raw), Below(b)) else 5000
      ensures raw == Without(old(raw), b, n)
    {
      ghost var was := raw;
      var kept, rest := [], raw;
      n := 0;
      assert Scanned(was, kept, rest, b, 0) by {
        assert forall m: nat :: [] + Without(rest, b, m) == Without(rest, b, m);
      }
      while rest != [] && n < BATCH
        invariant n <= BATCH && Scanned(was, kept, rest, b, n)
        decreases |rest|
      {
        ScanOne(was, kept, rest, b, n);
        if rest[0].ts < b { n := n + 1; } else { kept := kept + [rest[0]]; }
        rest := rest[1..];
      }
      assert Without(was, b, n + 0) == kept + Without(rest, b, 0);
      raw := kept + rest;
    }

    /** Batches until one comes back short: exactly the rows below the cutoff are gone. */
    method BatchedDelete(b: Time) returns (total: nat)
      modifies `raw
      ensures raw == From(old(raw), b) && total == Count(old(raw), Below(b))
    {
      total := 0;
      while true
        invariant total + Count(raw, Below(b)) == Count(old(raw), Below(b))
        invariant From(raw, b) == From(old(raw), b)
        decreases Count(raw, Below(b))
      {
        ghost var before := raw;
        var n := DeleteBatch(b);
        WithoutTakes(before, b, n);
        total := total + n;
        if n < BATCH { break; }
      }
      NoneLeft(raw, b);
    }

    /** The upsert, group by group. */
    method RollUpRaw(b: Time) returns (hours: nat)
      modifies `rollups
      ensures Seen() == RollUp(old(Seen()), b) && hours == |KeysBelow(raw, b)|
    {
      ghost var was := rollups;
      var groups := KeysBelow(raw, b);
      var todo := groups;
      hours := 0;
      while todo != {}
        invariant todo <= groups && hours + |todo| == |groups|
        invariant UpsertedOn(was, rollups, raw, b, groups - todo)
        decreases todo
      {
        var k :| k in todo;
        KeysHaveRows(raw, b, k);
        assert k !in groups - todo && groups - (todo - {k}) == (groups - todo) + {k};
        var row := Aggregate(raw, InBelow(k, b));
        UpsertOne(was, rollups, raw, b, groups - todo, k);
        rollups := rollups[k := if k in rollups then Merge(rollups[k], row) else row];
        hours, todo := hours + 1, todo - {k};
      }
      assert groups - todo == groups;
      UpsertedAll(was, rollups, raw, b);
    }

    method DeleteRollupBatch(oldest: Time) returns (n: nat)
      modifies `rollups
      ensures rollups.Keys <= old(rollups).Keys && forall k | k in rollups :: rollups[k] == old(rollups)[k]
      ensures forall k | k in old(rollups) && k.hour >= oldest :: k in rollups
      ensures n + |TooOld(rollups, oldest)| == |TooOld(old(rollups), oldest)|
      ensures n <= BATCH && (n < BATCH ==> TooOld(rollups, oldest) == {})
    {
      n := 0;
      while n < BATCH && TooOld(rollups, oldest) != {}
        invariant n <= BATCH && rollups.Keys <= old(rollups).Keys
        invariant forall k | k in rollups :: rollups[k] == old(rollups)[k]
        invariant forall k | k in old(rollups) && k.hour >= oldest :: k in rollups
        invariant n + |TooOld(rollups, oldest)| == |TooOld(old(rollups), oldest)|
        decreases BATCH - n
      {
        var k :| k in TooOld(rollups, oldest);
        ghost var before := TooOld(rollups, oldest);
        rollups := rollups - {k};
        assert TooOld(rollups, oldest) == before - {k};
        n := n + 1;
      }
    }

    method BatchedDeleteRollups(oldest: Time) returns (total: nat)
      modifies `rollups
      ensures rollups == AgeOut(old(rollups), oldest) && total == |TooOld(old(rollups), oldest)|
    {
      total := 0;
      while true
        invariant rollups.Keys <= old(rollups).Keys && forall k | k in rollups :: rollups[k] == old(rollups)[k]
        invariant forall k | k in old(rollups) && k.hour >= oldest :: k in rollups
        invariant total + |TooOld(rollups, oldest)| == |TooOld(old(rollups), oldest)|
        decreases |TooOld(rollups, oldest)|
      {
        var n := DeleteRollupBatch(oldest);
        total := total + n;
        if n < BATCH { break; }
      }
      assert forall k | k in rollups :: k.hour < oldest ==> k in TooOld(rollups, oldest);
    }

    /** The sweep: merge below the whole-hour boundary, delete the raw rows below it, age out the
        oldest merged rows.  The clock is read again, as `later`, for the last step. */
    method SweepRetention(p: Policy, now: Time, later: Time) returns (st: Stats)
      modifies this
      ensures Seen() == Sweep(old(Seen()), Boundary(p, now), later - InForce(p).rollupMetrics)
      ensures st.rolledUpHours == |KeysBelow(old(raw), Boundary(p, now))|
      ensures st.rawDeleted == Count(old(raw), Below(Boundary(p, now)))
      ensures st.rollupsDeleted ==
              |TooOld(RollUp(old(Seen()), Boundary(p, now)).rollups, later - InForce(p).rollupMetrics)|
      ensures forall r | r in raw :: r in old(raw)
      ensures forall r | r in old(raw) && now - r.ts <= RawPeriod(p) :: r in raw
      ensures forall r | r in raw :: now - r.ts < RawPeriod(p) + 3600 * SECOND
      ensures forall k | k in rollups :: later - k.hour <= RollupPeriod(p)
    {
      var policy := p;
      if policy.rawMetrics <= 0 { policy := DEFAULT; }
      assert policy == InForce(p);
      var boundary := Boundary(p, now);
      var oldest := later - policy.rollupMetrics;
      st := SweepFrom(boundary, oldest);
      KeptByAge(old(Seen()), p, now, later);
    }

    method SweepFrom(boundary: Time, oldest: Time) returns (st: Stats)
      modifies this
      ensures Seen() == Sweep(old(Seen()), boundary, oldest)
      ensures st.rolledUpHours == |KeysBelow(old(raw), boundary)|
      ensures st.rawDeleted == Count(old(raw), Below(boundary))
      ensures st.rollupsDeleted == |TooOld(RollUp(old(Seen()), boundary).rollups, oldest)|
    {
      ghost var was := Seen();
      var hours := RollUpRaw(boundary);
      ghost var rolled := rollups;
      assert raw == was.raw && rolled == RollUp(was, boundary).rollups;
      var deleted := BatchedDelete(boundary);
      var aged := BatchedDeleteRollups(oldest);
      st := Stats(hours, deleted, aged);
    }
  }
}
