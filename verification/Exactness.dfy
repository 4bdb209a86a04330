/** What clocks that do not run backwards add: settled totals are exact, and no GPU time is
    billed to two workloads. */
module Exactness {
  import opened Tables
  import opened Transitions
  import opened Books
  import opened Runs
  import opened Ledger
  import opened Metering
  import opened Settlement

  // ----- stamps and watermarks are in the past, and in order

  predicate TimedRow(row: Workload, mark: Option<Time>, clock: Time) {
    && (row.startedAt.Some? ==> row.startedAt.value <= clock)
    && (row.stoppedAt.Some? ==> row.stoppedAt.value <= clock)
    && (row.startedAt.Some? && row.stoppedAt.Some? ==> row.startedAt.value <= row.stoppedAt.value)
    && (mark.Some? ==> mark.value <= clock)
    && (mark.Some? && row.stoppedAt.Some? ==> mark.value <= row.stoppedAt.value)
  }

  ghost predicate Timed(s: Whole) {
    forall w | w in s.sys.db.workloads :: TimedRow(s.sys.db.workloads[w], MarkOf(s.acc.mark, w), s.clock)
  }

  lemma ControlTimed(s: Whole, step: Step)
    requires Fine(s) && Timed(s) && Legal(s.sys, step) && OnTime(s, Control(step))
    ensures Timed(After(s, Control(step)))
  {
    StepGood(s.sys, step);
    var a, t := s.sys.db, After(s, Control(step));
    forall w | w in t.sys.db.workloads
      ensures TimedRow(t.sys.db.workloads[w], MarkOf(t.acc.mark, w), t.clock)
    {
      StampedNow(s.sys, step, w);
      if w in a.workloads {
        assert RowOnward(a, t.sys.db, w);
        assert TimedRow(a.workloads[w], MarkOf(s.acc.mark, w), s.clock);
      } else {
        assert Unbilled(s.acc, w);
      }
    }
  }

  lemma MeterTimed(s: Whole, w: WorkloadId, gs: seq<GpuId>, rates: Rates, now: Time)
    requires Fine(s) && Timed(s) && Allowed(s, Meter(w, gs, rates, now)) && OnTime(s, Meter(w, gs, rates, now))
    ensures Timed(After(s, Meter(w, gs, rates, now)))
  {
    var t := After(s, Meter(w, gs, rates, now));
    forall v | v in t.sys.db.workloads
      ensures TimedRow(t.sys.db.workloads[v], MarkOf(t.acc.mark, v), t.clock)
    {
      assert TimedRow(s.sys.db.workloads[v], MarkOf(s.acc.mark, v), s.clock);
    }
  }

  // ----- one GPU, one workload at a time

  /** Nothing was detached from a workload that is still active. */
  ghost predicate Open(db: Db) {
    forall w: WorkloadId, g: GpuId | ActiveIn(db, w) && (w, g) in db.attachments :: Holds(db, w, g)
  }

  predicate EndsBefore(a: Workload, b: Workload) {
    a.stoppedAt.Some? && b.startedAt.Some? && a.stoppedAt.value <= b.startedAt.value
  }

  ghost predicate Apart(db: Db, v: WorkloadId, w: WorkloadId)
    requires v in db.workloads && w in db.workloads
  {
    EndsBefore(db.workloads[v], db.workloads[w]) || EndsBefore(db.workloads[w], db.workloads[v])
  }

  ghost predicate Shared(db: Db, v: WorkloadId, w: WorkloadId, g: GpuId) {
    v != w && v in db.workloads && w in db.workloads && (v, g) in db.attachments && (w, g) in db.attachments &&
    db.workloads[v].startedAt.Some? && db.workloads[w].startedAt.Some?
  }

  /** Two started workloads that share a GPU ran one after the other. */
  ghost predicate TakeTurns(db: Db) {
    forall v, w, g | Shared(db, v, w, g) :: Apart(db, v, w)
  }

  lemma AttachOpens(db: Db, v: WorkloadId, gs: set<GpuId>, g: GpuId)
    requires Attach(db, v, gs).Ok?
    ensures var d := Attach(db, v, gs).value;
            forall w | (w, g) in d.attachments && (w, g) !in db.attachments :: w == v && Holds(d, w, g)
  {
  }

  /** Only placement attaches. */
  lemma OthersDetach(s: System, step: Step)
    requires !step.Place? && !step.PromoteOne?
    ensures Next(s, step).db.attachments.Keys <= s.db.attachments.Keys
  {
    if step.SweepAll? { SweepTables(s.db, step.now); }
    else if step.Apply? {
      if step.r in s.reports && s.reports[step.r].Loaded? { ReportDetaches(s.db, s.reports[step.r], step.c, step.now); }
    } else if step.ReportGpu? || step.Remove? {
    } else {
      QuietElsewhere(s, step);
    }
  }

  lemma ReportDetaches(db: Db, r: Inflight, c: CommandId, now: Time)
    requires r.Loaded?
    ensures ApplyReport(db, r, c, now).attachments.Keys == db.attachments.Keys
  {
  }

  ghost predicate FreshlyHeld(db: Db, w: WorkloadId, g: GpuId) {
    (w, g) in db.attachments ==> Holds(db, w, g) && w in db.workloads && db.workloads[w].status.Pending?
  }

  lemma LaunchOpens(db: Db, v: WorkloadId, org: OrgId, gpuType: string, count: nat, p: Placement, c: CommandId,
                    now: Time, w: WorkloadId, g: GpuId)
    requires LaunchPlaced(db, v, org, gpuType, count, p, c, now).Ok? && (w, g) !in db.attachments
    ensures FreshlyHeld(LaunchPlaced(db, v, org, gpuType, count, p, c, now).value, w, g)
  {
    var db1 := db.(workloads := db.workloads[v := NewWorkload(org, gpuType, count, Pending, Some(p.node), now, None)]);
    AttachOpens(db1, v, p.gpus, g);
  }

  lemma PromoteOpens(db: Db, v: WorkloadId, p: Placement, c: CommandId, now: Time, w: WorkloadId, g: GpuId)
    requires Promote(db, v, p, c, now).Ok? && (w, g) !in db.attachments
    ensures FreshlyHeld(Promote(db, v, p, c, now).value, w, g)
  {
    var db1 := db.(workloads := db.workloads[v := db.workloads[v].(status := Pending, node := Some(p.node))]);
    AttachOpens(db1, v, p.gpus, g);
  }

  /** A workload that was queued or unknown and has attachments now is pending, all of them open. */
  lemma FreshlyOpen(s: System, step: Step, w: WorkloadId, g: GpuId)
    requires Linked(s.db) && (w in s.db.workloads ==> s.db.workloads[w].status.Queued?)
    ensures FreshlyHeld(Next(s, step).db, w, g)
  {
    assert (w, g) !in s.db.attachments;
    if step.Place? {
      if LaunchPlaced(s.db, step.w, step.org, step.gpuType, step.count, step.p, step.c, step.now).Ok? {
        LaunchOpens(s.db, step.w, step.org, step.gpuType, step.count, step.p, step.c, step.now, w, g);
      }
    } else if step.PromoteOne? {
      if Promote(s.db, step.w, step.p, step.c, step.now).Ok? {
        PromoteOpens(s.db, step.w, step.p, step.c, step.now, w, g);
      }
    } else {
      OthersDetach(s, step);
      assert (w, g) !in s.db.attachments.Keys;
    }
  }

  /** A workload that is placed before and after a step keeps its attachments, open ones open. */
  lemma AttachedBefore(s: System, step: Step, w: WorkloadId, g: GpuId)
    requires Good(s) && Legal(s, step) && (w, g) in Next(s, step).db.attachments
    requires w in s.db.workloads && !s.db.workloads[w].status.Queued?
    ensures (w, g) in s.db.attachments
    ensures ActiveIn(Next(s, step).db, w) && Holds(s.db, w, g) ==> Holds(Next(s, step).db, w, g)
  {
    StepGood(s, step);
    var d := Next(s, step).db;
    AttachedFixed(s, step, w);
    assert g in Attached(d, w) && g in Attached(s.db, w);
    assert RowOnward(s.db, d, w);
    if ActiveIn(d, w) && Holds(s.db, w, g) { assert g in HeldBy(s.db, w) && g in HeldBy(d, w); }
  }

  lemma StaysOpen(s: System, step: Step)
    requires Good(s) && Legal(s, step) && Open(s.db)
    ensures Open(Next(s, step).db)
  {
    StepGood(s, step);
    var d := Next(s, step).db;
    forall w: WorkloadId, g: GpuId | ActiveIn(d, w) && (w, g) in d.attachments ensures Holds(d, w, g) {
      if w in s.db.workloads && !s.db.workloads[w].status.Queued? {
        AttachedBefore(s, step, w, g);
        assert RowOnward(s.db, d, w);
        assert ActiveIn(s.db, w);
      } else {
        FreshlyOpen(s, step, w, g);
      }
    }
  }

  /** A started workload with attachments was placed before the step; if it started in this very
      step it held them. */
  lemma SharedBefore(s: System, step: Step, w: WorkloadId, g: GpuId)
    requires Good(s) && Legal(s, step) && Open(s.db)
    requires var d := Next(s, step).db;
             (w, g) in d.attachments && w in d.workloads && d.workloads[w].startedAt.Some?
    ensures w in s.db.workloads && !s.db.workloads[w].status.Queued? && (w, g) in s.db.attachments
    ensures s.db.workloads[w].startedAt.None? ==>
              Holds(s.db, w, g) && Next(s, step).db.workloads[w].startedAt == TimeOf(step)
  {
    StepGood(s, step);
    var d := Next(s, step).db;
    if w !in s.db.workloads || s.db.workloads[w].status.Queued? {
      FreshlyOpen(s, step, w, g);
      assert false;
    } else {
      AttachedBefore(s, step, w, g);
      StampedNow(s, step, w);
      assert RowOnward(s.db, d, w);
      if s.db.workloads[w].startedAt.None? { assert ActiveIn(s.db, w); }
    }
  }

  /** Whoever else was ever on a GPU that w holds has ended. */
  lemma OthersEnded(s: Whole, v: WorkloadId, w: WorkloadId, g: GpuId)
    requires Fine(s) && Timed(s) && Open(s.sys.db)
    requires v != w && Holds(s.sys.db, w, g) && (v, g) in s.sys.db.attachments
    ensures v in s.sys.db.workloads && s.sys.db.workloads[v].stoppedAt.Some?
    ensures s.sys.db.workloads[v].stoppedAt.value <= s.clock
  {
    var db := s.sys.db;
    assert Open(db) && OneHolder(db);
    if ActiveIn(db, v) { assert false; }
    assert TimedRow(db.workloads[v], MarkOf(s.acc.mark, v), s.clock);
  }

  /** A started workload had the GPU attached before; if it starts now, it held it. */
  ghost predicate StartsHolding(a: Db, b: Db, v: WorkloadId, g: GpuId, now: Time) {
    v in a.workloads && v in b.workloads && (v, g) in a.attachments && b.workloads[v].startedAt.Some? &&
    (a.workloads[v].startedAt.None? ==> Holds(a, v, g) && b.workloads[v].startedAt == Some(now))
  }

  /** Of two workloads on one GPU, one that starts now starts after the other ended. */
  lemma TurnsKept(s: Whole, b: Db, v: WorkloadId, w: WorkloadId, g: GpuId, now: Time)
    requires Fine(s) && Timed(s) && Open(s.sys.db) && TakeTurns(s.sys.db) && v != w && now >= s.clock
    requires StartsHolding(s.sys.db, b, v, g, now) && StartsHolding(s.sys.db, b, w, g, now)
    requires RowOnward(s.sys.db, b, v) && RowOnward(s.sys.db, b, w)
    ensures Apart(b, v, w)
  {
    var a := s.sys.db;
    if a.workloads[w].startedAt.None? {
      OthersEnded(s, v, w, g);
    } else if a.workloads[v].startedAt.None? {
      OthersEnded(s, w, v, g);
    } else {
      assert Shared(a, v, w, g);
    }
  }

  lemma ControlTurns(s: Whole, step: Step, v: WorkloadId, w: WorkloadId, g: GpuId)
    requires Fine(s) && Timed(s) && Open(s.sys.db) && TakeTurns(s.sys.db)
    requires Legal(s.sys, step) && OnTime(s, Control(step)) && Shared(Next(s.sys, step).db, v, w, g)
    ensures Apart(Next(s.sys, step).db, v, w)
  {
    StepGood(s.sys, step);
    SharedBefore(s.sys, step, v, g);
    SharedBefore(s.sys, step, w, g);
    TurnsKept(s, Next(s.sys, step).db, v, w, g, TimeOf(step).GetOr(s.clock));
  }

  ghost predicate Exact(s: Whole) {
    Fine(s) && Timed(s) && Open(s.sys.db) && TakeTurns(s.sys.db)
  }

  lemma ActExact(s: Whole, act: Act)
    requires Exact(s) && Allowed(s, act) && OnTime(s, act)
    ensures Exact(After(s, act))
  {
    ActFine(s, act);
    match act
    case Control(step) =>
      ControlTimed(s, step);
      StaysOpen(s.sys, step);
      forall v, w, g | Shared(Next(s.sys, step).db, v, w, g) ensures Apart(Next(s.sys, step).db, v, w) {
        ControlTurns(s, step, v, w, g);
      }
    case Meter(w, gs, rates, now) => MeterTimed(s, w, gs, rates, now);
    case Credit(_, _, _) =>
  }

  lemma {:induction false} HistoryExact(run: seq<Whole>, i: nat)
    requires IsHistory(run, true) && i < |run|
    ensures Exact(run[i])
  {
    if i == 0 {
      StartFine(run[0]);
    } else {
      HistoryExact(run, i - 1);
      assert ActsAt(run, i - 1, true);
      var act :| Allowed(run[i - 1], act) && OnTime(run[i - 1], act) && After(run[i - 1], act) == run[i];
      ActExact(run[i - 1], act);
    }
  }

  // ----- theorems over timely histories

  /** Once a workload that ended is settled, each of its GPUs has been billed for exactly
      stopped_at - started_at, in tiles, whatever the schedule of sweeps and settlements was. */
  lemma SettledExactly(run: seq<Whole>, i: nat, w: WorkloadId, g: GpuId, now: Time)
    requires IsHistory(run, true) && i < |run| && w in run[i].sys.db.workloads
    requires var row := run[i].sys.db.workloads[w]; row.startedAt.Some? && row.status.Terminal()
    requires UpToDate(run[i].sys.db.workloads[w], MarkOf(run[i].acc.mark, w), now) && g in Attached(run[i].sys.db, w)
    ensures var row, periods := run[i].sys.db.workloads[w], Periods(run[i].acc.usage, w, g);
            row.stoppedAt.Some? && Tile(periods, row.startedAt.value, row.stoppedAt.value) &&
            Elapsed(periods) == row.stoppedAt.value - row.startedAt.value
  {
    HistoryExact(run, i);
    var db, acc := run[i].sys.db, run[i].acc;
    var row := db.workloads[w];
    assert TimedRow(row, MarkOf(acc.mark, w), run[i].clock);
    assert Tiled(db, acc, w) && (w, g) in db.attachments && TiledOn(db, acc, w, g);
    TileElapsed(Periods(acc.usage, w, g), row.startedAt.value, row.stoppedAt.value);
  }

  /** The seconds charged for a settled workload on one GPU never exceed its elapsed time T, and
      fall short of it by less than T/300 + 1 seconds. */
  lemma SettledWithinBound(run: seq<Whole>, i: nat, w: WorkloadId, g: GpuId, now: Time)
    requires IsHistory(run, true) && i < |run| && w in run[i].sys.db.workloads
    requires var row := run[i].sys.db.workloads[w]; row.startedAt.Some? && row.status.Terminal()
    requires UpToDate(run[i].sys.db.workloads[w], MarkOf(run[i].acc.mark, w), now) && g in Attached(run[i].sys.db, w)
    ensures var row, charged := run[i].sys.db.workloads[w], Charged(Periods(run[i].acc.usage, w, g));
            row.stoppedAt.Some? &&
            var t := row.stoppedAt.value - row.startedAt.value;
            SECOND * charged <= t && 300 * (t - SECOND * charged) < t + 300 * SECOND
  {
    SettledExactly(run, i, w, g, now);
    LongButLast(run, i, w, g);
    var row := run[i].sys.db.workloads[w];
    TruncationBound(Periods(run[i].acc.usage, w, g), row.startedAt.value, row.stoppedAt.value);
  }

  lemma LongButLast(run: seq<Whole>, i: nat, w: WorkloadId, g: GpuId)
    requires IsHistory(run, true) && i < |run| && w in run[i].sys.db.workloads && g in Attached(run[i].sys.db, w)
    requires run[i].sys.db.workloads[w].startedAt.Some?
    ensures var periods := Periods(run[i].acc.usage, w, g); periods == [] || Long(periods[..|periods| - 1])
  {
    HistoryExact(run, i);
    var db, acc := run[i].sys.db, run[i].acc;
    assert Tiled(db, acc, w) && (w, g) in db.attachments && TiledOn(db, acc, w, g);
  }

  // ----- no GPU time is billed twice

  lemma {:induction false} RowInPeriods(usage: seq<Usage>, i: nat) returns (k: nat)
    requires i < |usage|
    ensures var periods := Periods(usage, usage[i].workload, usage[i].gpu); k < |periods| && periods[k] == usage[i]
    decreases |usage|
  {
    var n := |usage| - 1;
    if i < n { k := RowInPeriods(usage[..n], i); }
    else { k := |Periods(usage[..n], usage[n].workload, usage[n].gpu)|; }
  }

  predicate Before(a: Usage, b: Usage) { a.to <= b.from }

  /** The record is over before w started, or begins after w ended. */
  predicate KeepsClear(u: Usage, row: Workload) {
    row.startedAt.Some? && (u.to <= row.startedAt.value || (row.stoppedAt.Some? && row.stoppedAt.value <= u.from))
  }

  ghost predicate Holder(db: Db, w: WorkloadId, g: GpuId) {
    w in db.workloads && db.workloads[w].startedAt.Some? && (w, g) in db.attachments
  }

  ghost predicate PastRecords(s: Whole) {
    forall i | 0 <= i < |s.acc.usage| :: s.acc.usage[i].from < s.acc.usage[i].to <= s.clock
  }

  /** Whoever was on a GPU other than by that record was not on it during the record. */
  ghost predicate AllClear(s: Whole) {
    forall w: WorkloadId, i | 0 <= i < |s.acc.usage| && s.acc.usage[i].workload != w &&
      Holder(s.sys.db, w, s.acc.usage[i].gpu) ::
      KeepsClear(s.acc.usage[i], s.sys.db.workloads[w])
  }

  ghost predicate NoneOverlap(usage: seq<Usage>) {
    forall i, j | 0 <= i < j < |usage| && usage[i].gpu == usage[j].gpu ::
      Before(usage[i], usage[j]) || Before(usage[j], usage[i])
  }

  ghost predicate Disjoint(s: Whole) { PastRecords(s) && AllClear(s) && NoneOverlap(s.acc.usage) }

  /** Who starts on a GPU now was not on it during the records so far. */
  lemma StillClear(s: Whole, b: Db, w: WorkloadId, i: nat, now: Time)
    requires Disjoint(s) && i < |s.acc.usage| && s.acc.usage[i].workload != w && now >= s.clock
    requires StartsHolding(s.sys.db, b, w, s.acc.usage[i].gpu, now) && RowOnward(s.sys.db, b, w)
    ensures KeepsClear(s.acc.usage[i], b.workloads[w])
  {
    var a, u := s.sys.db, s.acc.usage[i];
    if a.workloads[w].startedAt.Some? { assert Holder(a, w, u.gpu) && KeepsClear(u, a.workloads[w]); }
    else { assert u.to <= s.clock; }
  }

  lemma ControlDisjoint(s: Whole, step: Step)
    requires Exact(s) && Disjoint(s) && Legal(s.sys, step) && OnTime(s, Control(step))
    ensures Disjoint(After(s, Control(step)))
  {
    StepGood(s.sys, step);
    var b := Next(s.sys, step).db;
    forall w: WorkloadId, i | 0 <= i < |s.acc.usage| && s.acc.usage[i].workload != w && Holder(b, w, s.acc.usage[i].gpu)
      ensures KeepsClear(s.acc.usage[i], b.workloads[w])
    {
      SharedBefore(s.sys, step, w, s.acc.usage[i].gpu);
      StillClear(s, b, w, i, TimeOf(step).GetOr(s.clock));
    }
  }

  /** What the records of w so far leave free: the time from where it is billed to. */
  lemma OwnRecordsEnd(s: Whole, w: WorkloadId, i: nat)
    requires Fine(s) && i < |s.acc.usage| && s.acc.usage[i].workload == w && Holder(s.sys.db, w, s.acc.usage[i].gpu)
    ensures s.acc.usage[i].to <= BilledTo(s.sys.db.workloads[w], MarkOf(s.acc.mark, w))
  {
    var db, u, row := s.sys.db, s.acc.usage[i], s.sys.db.workloads[w];
    var k := RowInPeriods(s.acc.usage, i);
    assert Tiled(db, s.acc, w) && row.node.Some? && TiledOn(db, s.acc, w, u.gpu);
    TileBounds(Periods(s.acc.usage, w, u.gpu), row.startedAt.value, BilledTo(row, MarkOf(s.acc.mark, w)), k);
  }

  /** A new record of w starts after every earlier record on the same GPU has ended, or ends before
      it starts. */
  lemma NewRecordClear(s: Whole, w: WorkloadId, span: Span, now: Time, i: nat)
    requires Exact(s) && Disjoint(s) && i < |s.acc.usage| && Holder(s.sys.db, w, s.acc.usage[i].gpu)
    requires Slice(s.sys.db.workloads[w], MarkOf(s.acc.mark, w), now) == Some(span)
    ensures s.acc.usage[i].to <= span.from || span.to <= s.acc.usage[i].from
  {
    if s.acc.usage[i].workload == w { OwnRecordsEnd(s, w, i); }
    else { assert KeepsClear(s.acc.usage[i], s.sys.db.workloads[w]); }
  }

  /** A new record of v keeps clear of every other workload that was on the GPU. */
  lemma OthersClear(s: Whole, v: WorkloadId, w: WorkloadId, g: GpuId, span: Span, now: Time)
    requires Exact(s) && v != w && Holder(s.sys.db, v, g) && Holder(s.sys.db, w, g)
    requires Slice(s.sys.db.workloads[v], MarkOf(s.acc.mark, v), now) == Some(span)
    ensures KeepsClear(UsageRow(s.sys.db.workloads[v].org, v, g, span), s.sys.db.workloads[w])
  {
    assert Shared(s.sys.db, v, w, g);
    assert Apart(s.sys.db, v, w);
  }

  /** The usage records after w was billed for span: new ones for the GPUs attached to it. */
  ghost predicate Grown(s: Whole, w: WorkloadId, span: Span, now: Time, more: seq<Usage>) {
    w in s.sys.db.workloads && s.acc.usage <= more &&
    Slice(s.sys.db.workloads[w], MarkOf(s.acc.mark, w), now) == Some(span) &&
    forall k | |s.acc.usage| <= k < |more| :: NewRow(s.sys.db, w, span, more[k])
  }

  ghost predicate NewRow(db: Db, w: WorkloadId, span: Span, u: Usage)
    requires w in db.workloads
  {
    u == UsageRow(db.workloads[w].org, w, u.gpu, span) && Holder(db, w, u.gpu)
  }

  lemma UsageGrows(s: Whole, w: WorkloadId, gs: seq<GpuId>, span: Span, now: Time, rates: Rates)
    requires Fine(s) && Allowed(s, Meter(w, gs, rates, now)) && SliceOf(s.sys.db, s.acc, w, now) == Some(span)
    ensures Grown(s, w, span, now, After(s, Meter(w, gs, rates, now)).acc.usage)
    ensures forall k | |s.acc.usage| <= k < |After(s, Meter(w, gs, rates, now)).acc.usage| ::
              After(s, Meter(w, gs, rates, now)).acc.usage[k].gpu == gs[k - |s.acc.usage|]
  {
    var db, org, n := s.sys.db, s.sys.db.workloads[w].org, |s.acc.usage|;
    var more := After(s, Meter(w, gs, rates, now)).acc.usage;
    assert more == s.acc.usage + UsageRows(org, w, gs, span);
    forall k | n <= k < |more| ensures NewRow(db, w, span, more[k]) && more[k].gpu == gs[k - n] {
      assert more[k] == UsageRow(org, w, gs[k - n], span);
      assert gs[k - n] in gs && gs[k - n] in Attached(db, w);
    }
  }

  lemma GrownClear(s: Whole, w: WorkloadId, span: Span, now: Time, more: seq<Usage>, v: WorkloadId, i: nat)
    requires Exact(s) && Disjoint(s) && Grown(s, w, span, now, more)
    requires i < |more| && more[i].workload != v && Holder(s.sys.db, v, more[i].gpu)
    ensures KeepsClear(more[i], s.sys.db.workloads[v])
  {
    if i < |s.acc.usage| {
      assert s.acc.usage[i] == more[i];
    } else {
      assert NewRow(s.sys.db, w, span, more[i]);
      OthersClear(s, w, v, more[i].gpu, span, now);
    }
  }

  lemma GrownApart(s: Whole, w: WorkloadId, span: Span, now: Time, more: seq<Usage>, i: nat, j: nat)
    requires Exact(s) && Disjoint(s) && Grown(s, w, span, now, more)
    requires i < j < |more| && more[i].gpu == more[j].gpu && i < |s.acc.usage|
    ensures Before(more[i], more[j]) || Before(more[j], more[i])
  {
    assert s.acc.usage[i] == more[i];
    if j < |s.acc.usage| {
      assert s.acc.usage[j] == more[j];
    } else {
      assert NewRow(s.sys.db, w, span, more[j]);
      NewRecordClear(s, w, span, now, i);
    }
  }

  lemma MeterDisjoint(s: Whole, w: WorkloadId, gs: seq<GpuId>, rates: Rates, now: Time)
    requires Exact(s) && Disjoint(s) && Allowed(s, Meter(w, gs, rates, now)) && OnTime(s, Meter(w, gs, rates, now))
    ensures Disjoint(After(s, Meter(w, gs, rates, now)))
  {
    var t, slice := After(s, Meter(w, gs, rates, now)), SliceOf(s.sys.db, s.acc, w, now);
    if slice.Some? {
      var more, span, n := t.acc.usage, slice.value, |s.acc.usage|;
      UsageGrows(s, w, gs, span, now, rates);
      forall i, j | 0 <= i < j < |more| && more[i].gpu == more[j].gpu
        ensures Before(more[i], more[j]) || Before(more[j], more[i])
      {
        if i < n { GrownApart(s, w, span, now, more, i, j); } else { assert false; }
      }
      forall v: WorkloadId, i | 0 <= i < |more| && more[i].workload != v && Holder(s.sys.db, v, more[i].gpu)
        ensures KeepsClear(more[i], s.sys.db.workloads[v])
      {
        GrownClear(s, w, span, now, more, v, i);
      }
      assert TimedRow(s.sys.db.workloads[w], MarkOf(s.acc.mark, w), s.clock);
      forall i | 0 <= i < |more| ensures more[i].from < more[i].to <= t.clock {
        if i < n { assert more[i] == s.acc.usage[i]; } else { assert NewRow(s.sys.db, w, span, more[i]); }
      }
    }
  }

  lemma ActDisjoint(s: Whole, act: Act)
    requires Exact(s) && Disjoint(s) && Allowed(s, act) && OnTime(s, act)
    ensures Disjoint(After(s, act))
  {
    match act
    case Control(step) => ControlDisjoint(s, step);
    case Meter(w, gs, rates, now) => MeterDisjoint(s, w, gs, rates, now);
    case Credit(_, _, _) =>
  }

  lemma {:induction false} HistoryDisjoint(run: seq<Whole>, i: nat)
    requires IsHistory(run, true) && i < |run|
    ensures Disjoint(run[i])
  {
    if i > 0 {
      HistoryDisjoint(run, i - 1);
      HistoryExact(run, i - 1);
      assert ActsAt(run, i - 1, true);
      var act :| Allowed(run[i - 1], act) && OnTime(run[i - 1], act) && After(run[i - 1], act) == run[i];
      ActDisjoint(run[i - 1], act);
    }
  }

  /** No GPU time is billed twice: two usage records of one GPU never share an instant, be they of one
      workload or of two, and whether or not the GPU's node was removed since. */
  lemma GpuTimeBilledOnce(run: seq<Whole>, i: nat, j: nat, k: nat)
    requires IsHistory(run, true) && i < |run| && j < |run[i].acc.usage| && k < |run[i].acc.usage| && j != k
    requires run[i].acc.usage[j].gpu == run[i].acc.usage[k].gpu
    ensures var p, q := run[i].acc.usage[j], run[i].acc.usage[k];
            p.from < p.to && q.from < q.to && (p.to <= q.from || q.to <= p.from)
  {
    HistoryDisjoint(run, i);
    var usage := run[i].acc.usage;
    if j < k { assert Before(usage[j], usage[k]) || Before(usage[k], usage[j]); }
    else { assert Before(usage[k], usage[j]) || Before(usage[j], usage[k]); }
  }
}
