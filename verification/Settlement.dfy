/** Billing against the whole control plane: metering sweeps, settlements and top-ups interleaved
    with every step of Runs, and what each workload has been charged for at any moment. */
module Settlement {
  import opened Tables
  import opened Transitions
  import opened Books
  import opened Runs
  import opened Ledger
  import opened Metering

  /** `clock` is the last time any step read. */
  datatype Whole = Whole(sys: System, acc: Accounts, clock: Time)

  datatype Act =
    | Control(step: Step)
    | Meter(w: WorkloadId, gs: seq<GpuId>, rates: Rates, now: Time)
    | Credit(org: OrgId, amount: real, now: Time)

  function TimeOf(step: Step): Option<Time> {
    match step
    case EnrollNode(_, _, now) => Some(now)
    case Queue(_, _, _, _, now) => Some(now)
    case Place(_, _, _, _, _, _, now) => Some(now)
    case PromoteOne(_, _, _, now) => Some(now)
    case Cancel(_, now) => Some(now)
    case StopOne(_, _, _, now) => Some(now)
    case Apply(_, _, now) => Some(now)
    case SweepAll(now) => Some(now)
    case Remove(_, _, _, now) => Some(now)
    case DeliverBatch(_, _, now) => Some(now)
    case Connect(_, now) => Some(now)
    case _ => None
  }

  function ReadClock(act: Act): Option<Time> {
    match act
    case Control(step) => TimeOf(step)
    case Meter(_, _, _, now) => Some(now)
    case Credit(_, _, now) => Some(now)
  }

  ghost predicate Allowed(s: Whole, act: Act) {
    match act
    case Control(step) => Legal(s.sys, step)
    case Meter(w, gs, rates, _) => IsListing(gs, Attached(s.sys.db, w)) && Known(s.sys.db, gs) && NonNegative(rates)
    case Credit(_, amount, _) => amount > 0.0
  }

  /** The clock does not run backwards. */
  predicate OnTime(s: Whole, act: Act) { ReadClock(act).GetOr(s.clock) >= s.clock }

  function After(s: Whole, act: Act): Whole
    requires act.Meter? ==> Known(s.sys.db, act.gs)
  {
    var clock := ReadClock(act).GetOr(s.clock);
    match act
    case Control(step) => Whole(Next(s.sys, step), s.acc, clock)
    case Meter(w, gs, rates, now) => Whole(s.sys, Metered(s.sys.db, s.acc, w, gs, rates, now), clock)
    case Credit(org, amount, now) => Whole(s.sys, s.acc.(ledger := Post(s.acc.ledger, org, amount, None, now)), clock)
  }

  // ----- what billing relies on in the control plane

  ghost predicate SameAttached(a: Db, b: Db, w: WorkloadId) { Attached(a, w) == Attached(b, w) }

  lemma AttachElsewhere(db: Db, v: WorkloadId, gs: set<GpuId>, w: WorkloadId)
    requires v != w && Attach(db, v, gs).Ok?
    ensures SameAttached(db, Attach(db, v, gs).value, w)
  {
    var d := Attach(db, v, gs).value;
    assert forall g :: (w, g) in d.attachments <==> (w, g) in db.attachments;
  }

  lemma PlacedElsewhere(db: Db, v: WorkloadId, row: Workload, gs: set<GpuId>, w: WorkloadId)
    requires v != w && Attach(db.(workloads := db.workloads[v := row]), v, gs).Ok?
    ensures SameAttached(db, Attach(db.(workloads := db.workloads[v := row]), v, gs).value, w)
  {
    AttachElsewhere(db.(workloads := db.workloads[v := row]), v, gs, w);
  }

  lemma InventoryElsewhere(db: Db, g: GpuId, n: NodeId, index: nat, model: string, w: WorkloadId)
    requires Linked(db) && AddGpu(db, g, n, index, model).Ok?
    ensures SameAttached(db, AddGpu(db, g, n, index, model).value, w)
  {
    assert (w, g) in db.attachments ==> g in db.gpus;
  }

  lemma RemovedElsewhere(db: Db, org: OrgId, n: NodeId, force: bool, now: Time, w: WorkloadId)
    requires Linked(db) && RemoveNode(db, org, n, force, now).Ok?
    requires w in db.workloads && !db.workloads[w].status.Queued?
    ensures var d := RemoveNode(db, org, n, force, now).value;
            w in d.workloads && (d.workloads[w].node.Some? ==> SameAttached(db, d, w))
  {
    var d := RemoveNode(db, org, n, force, now).value;
    RemoveNodeHolds(db, org, n, force, now);
    if d.workloads[w].node.Some? {
      forall g: GpuId ensures g in Attached(d, w) <==> g in Attached(db, w) {
        if (w, g) in db.attachments { assert db.workloads[w].node == Some(db.gpus[g].node); }
      }
    }
  }

  lemma SameKeys(a: Db, b: Db, w: WorkloadId)
    requires b.attachments.Keys == a.attachments.Keys && b.gpus.Keys == a.gpus.Keys
    ensures SameAttached(a, b, w)
  {
    assert forall g :: (w, g) in a.attachments.Keys <==> (w, g) in b.attachments.Keys;
  }

  lemma TerminalKeys(db: Db, v: WorkloadId, state: WorkloadStatus, seen: set<GpuId>, now: Time)
    ensures ReportTerminal(db, v, state, seen, now).attachments.Keys == db.attachments.Keys
    ensures ReportTerminal(db, v, state, seen, now).gpus.Keys == db.gpus.Keys
  {
  }

  lemma ReportElsewhere(db: Db, r: Inflight, c: CommandId, now: Time, w: WorkloadId)
    requires r.Loaded?
    ensures SameAttached(db, ApplyReport(db, r, c, now), w)
  {
    if r.state.Terminal() { TerminalKeys(db, r.workload, r.state, r.gpus, now); }
    SameKeys(db, ApplyReport(db, r, c, now), w);
  }

  lemma SweepElsewhere(db: Db, now: Time, w: WorkloadId)
    ensures SameAttached(db, Sweep(db, now), w)
  {
    SweepTables(db, now);
    SameKeys(db, Sweep(db, now), w);
  }

  lemma PlacingElsewhere(s: System, step: Step, w: WorkloadId)
    requires Good(s) && Legal(s, step) && w in s.db.workloads && !s.db.workloads[w].status.Queued?
    requires step.ReportGpu? || step.Place? || step.PromoteOne?
    ensures SameAttached(s.db, Next(s, step).db, w)
  {
    var db := s.db;
    match step
    case ReportGpu(g, n, index, model) =>
      if AddGpu(db, g, n, index, model).Ok? { InventoryElsewhere(db, g, n, index, model, w); }
    case Place(v, org, gpuType, count, p, c, now) =>
      if LaunchPlaced(db, v, org, gpuType, count, p, c, now).Ok? {
        PlacedElsewhere(db, v, NewWorkload(org, gpuType, count, Pending, Some(p.node), now, None), p.gpus, w);
      }
    case PromoteOne(v, p, c, now) =>
      if Promote(db, v, p, c, now).Ok? {
        PlacedElsewhere(db, v, db.workloads[v].(status := Pending, node := Some(p.node)), p.gpus, w);
      }
  }

  /** While a placed workload's node stays, its GPUs stay attached. */
  lemma AttachedFixed(s: System, step: Step, w: WorkloadId)
    requires Good(s) && Legal(s, step) && w in s.db.workloads && !s.db.workloads[w].status.Queued?
    requires var t := Next(s, step); w in t.db.workloads && t.db.workloads[w].node.Some?
    ensures SameAttached(s.db, Next(s, step).db, w)
  {
    var db := s.db;
    if step.ReportGpu? || step.Place? || step.PromoteOne? {
      PlacingElsewhere(s, step, w);
    } else if step.Apply? {
      if step.r in s.reports && s.reports[step.r].Loaded? {
        ReportElsewhere(db, s.reports[step.r], step.c, step.now, w);
      }
    } else if step.SweepAll? {
      SweepElsewhere(db, step.now, w);
    } else if step.Remove? {
      if RemoveNode(db, step.org, step.n, step.force, step.now).Ok? {
        RemovedElsewhere(db, step.org, step.n, step.force, step.now, w);
      }
    } else {
      QuietElsewhere(s, step);
    }
  }

  lemma QuietElsewhere(s: System, step: Step)
    requires !step.ReportGpu? && !step.Place? && !step.PromoteOne? && !step.Apply? && !step.SweepAll? && !step.Remove?
    ensures Next(s, step).db.attachments == s.db.attachments && Next(s, step).db.gpus == s.db.gpus
  {
  }

  /** Any stamp of w in b that a did not have is `at`. */
  ghost predicate OnlyStamped(a: Db, b: Db, w: WorkloadId, at: Option<Time>)
    requires w in b.workloads
  {
    var row := b.workloads[w];
    (row.startedAt.Some? && row.startedAt != at ==> w in a.workloads && a.workloads[w].startedAt == row.startedAt) &&
    (row.stoppedAt.Some? && row.stoppedAt != at ==> w in a.workloads && a.workloads[w].stoppedAt == row.stoppedAt)
  }

  lemma RunningStamps(db: Db, r: Inflight, c: CommandId, now: Time, w: WorkloadId)
    requires r.Loaded? && w in ReportRunning(db, r.node, r.workload, r.seen, c, now).workloads
    ensures OnlyStamped(db, ReportRunning(db, r.node, r.workload, r.seen, c, now), w, Some(now))
  {
  }

  lemma TerminalStamps(db: Db, v: WorkloadId, state: WorkloadStatus, seen: set<GpuId>, now: Time, w: WorkloadId)
    requires w in ReportTerminal(db, v, state, seen, now).workloads
    ensures OnlyStamped(db, ReportTerminal(db, v, state, seen, now), w, Some(now))
  {
  }

  lemma ReportStamps(db: Db, r: Inflight, c: CommandId, now: Time, w: WorkloadId)
    requires r.Loaded? && w in ApplyReport(db, r, c, now).workloads
    ensures OnlyStamped(db, ApplyReport(db, r, c, now), w, Some(now))
  {
    if r.state.Running? { RunningStamps(db, r, c, now, w); }
    else if r.state.Terminal() { TerminalStamps(db, r.workload, r.state, r.gpus, now, w); }
  }

  lemma SweepStamps(db: Db, now: Time, w: WorkloadId)
    requires w in db.workloads
    ensures Sweep(db, now).workloads.Keys == db.workloads.Keys && OnlyStamped(db, Sweep(db, now), w, Some(now))
  {
    SweepTables(db, now);
  }

  lemma RemoveStamps(db: Db, org: OrgId, n: NodeId, force: bool, now: Time, w: WorkloadId)
    requires RemoveNode(db, org, n, force, now).Ok? && w in RemoveNode(db, org, n, force, now).value.workloads
    ensures OnlyStamped(db, RemoveNode(db, org, n, force, now).value, w, Some(now))
  {
  }

  lemma UserStamps(s: System, step: Step, w: WorkloadId)
    requires w in Next(s, step).db.workloads && !step.Apply? && !step.SweepAll? && !step.Remove?
    ensures OnlyStamped(s.db, Next(s, step).db, w, TimeOf(step))
  {
  }

  /** A new stamp is the step's own time. */
  lemma StampedNow(s: System, step: Step, w: WorkloadId)
    requires w in Next(s, step).db.workloads
    ensures OnlyStamped(s.db, Next(s, step).db, w, TimeOf(step))
  {
    if step.Apply? {
      if step.r in s.reports && s.reports[step.r].Loaded? {
        ReportStamps(s.db, s.reports[step.r], step.c, step.now, w);
      }
    } else if step.SweepAll? {
      SweepTables(s.db, step.now);
      SweepStamps(s.db, step.now, w);
    } else if step.Remove? {
      if RemoveNode(s.db, step.org, step.n, step.force, step.now).Ok? {
        RemoveStamps(s.db, step.org, step.n, step.force, step.now, w);
      }
    } else {
      UserStamps(s, step, w);
    }
  }

  // ----- what every history keeps

  /** All periods but the last are at least the minimum slice, and the last too unless it
      settled a workload that ended. */
  ghost predicate LongUntilSettled(row: Workload, mark: Option<Time>, periods: seq<Usage>)
    requires row.startedAt.Some?
  {
    Long(periods) ||
    (periods != [] && Long(periods[..|periods| - 1]) &&
     row.status.Terminal() && row.stoppedAt.Some? && BilledTo(row, mark) >= row.stoppedAt.value)
  }

  ghost predicate TiledOn(db: Db, acc: Accounts, w: WorkloadId, g: GpuId)
    requires w in db.workloads && db.workloads[w].startedAt.Some?
  {
    var row, mark, periods := db.workloads[w], MarkOf(acc.mark, w), Periods(acc.usage, w, g);
    if g in Attached(db, w) then
      Tile(periods, row.startedAt.value, BilledTo(row, mark)) && LongUntilSettled(row, mark, periods)
    else periods == []
  }

  ghost predicate Unbilled(acc: Accounts, w: WorkloadId) {
    w !in acc.mark && forall g: GpuId :: Periods(acc.usage, w, g) == []
  }

  /** Each GPU of a started workload is billed in tiles from its start to the watermark. */
  ghost predicate Tiled(db: Db, acc: Accounts, w: WorkloadId)
    requires w in db.workloads
  {
    var row := db.workloads[w];
    if row.startedAt.None? then Unbilled(acc, w)
    else
      (w in acc.mark ==> acc.mark[w] > row.startedAt.value) &&
      (row.node.Some? ==> forall g: GpuId :: TiledOn(db, acc, w, g))
  }

  ghost predicate AllTiled(db: Db, acc: Accounts) {
    && (forall w | w in db.workloads :: Tiled(db, acc, w))
    && (forall w: WorkloadId | w !in db.workloads :: Unbilled(acc, w))
  }

  /** A row that moves onward with its attachments kept stays tiled by the same records. */
  lemma TiledCarried(a: Db, b: Db, acc: Accounts, w: WorkloadId)
    requires w in a.workloads && RowOnward(a, b, w) && Tiled(a, acc, w)
    requires a.workloads[w].startedAt.Some? ==> !a.workloads[w].status.Queued?
    requires a.workloads[w].startedAt.Some? && b.workloads[w].node.Some? ==> SameAttached(a, b, w)
    ensures Tiled(b, acc, w)
  {
    var r, t := a.workloads[w], b.workloads[w];
    if t.startedAt.Some? && t.node.Some? {
      forall g: GpuId ensures TiledOn(b, acc, w, g) {
        if r.startedAt.Some? { assert TiledOn(a, acc, w, g); } else { assert Periods(acc.usage, w, g) == []; }
      }
    }
  }

  lemma ControlTiled(s: System, step: Step, acc: Accounts, w: WorkloadId)
    requires Good(s) && Legal(s, step) && w in s.db.workloads && Tiled(s.db, acc, w)
    ensures w in Next(s, step).db.workloads && Tiled(Next(s, step).db, acc, w)
  {
    StepGood(s, step);
    var a, b := s.db, Next(s, step).db;
    assert RowOnward(a, b, w);
    if a.workloads[w].startedAt.Some? && b.workloads[w].node.Some? { AttachedFixed(s, step, w); }
    TiledCarried(a, b, acc, w);
  }

  lemma ControlAllTiled(s: System, step: Step, acc: Accounts)
    requires Good(s) && Legal(s, step) && AllTiled(s.db, acc)
    ensures AllTiled(Next(s, step).db, acc)
  {
    StepGood(s, step);
    var b := Next(s, step).db;
    forall w | w in b.workloads ensures Tiled(b, acc, w) {
      if w in s.db.workloads {
        ControlTiled(s, step, acc, w);
      } else if b.workloads[w].startedAt.Some? && b.workloads[w].node.Some? {
        forall g: GpuId ensures TiledOn(b, acc, w, g) { assert Periods(acc.usage, w, g) == []; }
      }
    }
    forall w | w in s.db.workloads ensures w in b.workloads { assert RowOnward(s.db, b, w); }
  }

  /** The new period of each attached GPU starts where the last one ended. */
  lemma BilledOn(db: Db, acc: Accounts, w: WorkloadId, gs: seq<GpuId>, rates: Rates, span: Span, now: Time, g: GpuId)
    requires w in db.workloads && IsListing(gs, Attached(db, w)) && Known(db, gs)
    requires Slice(db.workloads[w], MarkOf(acc.mark, w), now) == Some(span)
    requires TiledOn(db, acc, w, g)
    ensures TiledOn(db, Bill(db, acc, w, gs, rates, span, now), w, g)
  {
    var b := Bill(db, acc, w, gs, rates, span, now);
    BillPeriods(db, acc, w, gs, rates, span, now, w, g);
    var was, periods := Periods(acc.usage, w, g), Periods(b.usage, w, g);
    if g in Attached(db, w) {
      assert periods[..|periods| - 1] == was;
    }
  }

  lemma MeterTiled(db: Db, acc: Accounts, w: WorkloadId, gs: seq<GpuId>, rates: Rates, now: Time)
    requires AllTiled(db, acc) && IsListing(gs, Attached(db, w)) && Known(db, gs)
    ensures AllTiled(db, Metered(db, acc, w, gs, rates, now))
  {
    var b, slice := Metered(db, acc, w, gs, rates, now), SliceOf(db, acc, w, now);
    if slice.Some? {
      forall v: WorkloadId, g | v != w ensures Periods(b.usage, v, g) == Periods(acc.usage, v, g) {
        BillPeriods(db, acc, w, gs, rates, slice.value, now, v, g);
      }
      forall v | v in db.workloads ensures Tiled(db, b, v) {
        assert Tiled(db, acc, v);
        if db.workloads[v].startedAt.Some? && db.workloads[v].node.Some? {
          forall g: GpuId ensures TiledOn(db, b, v, g) {
            assert TiledOn(db, acc, v, g);
            if v == w { BilledOn(db, acc, w, gs, rates, slice.value, now, g); }
          }
        }
      }
    }
  }

  lemma LedgerApart(db: Db, acc: Accounts, ledger: seq<Entry>)
    requires AllTiled(db, acc)
    ensures AllTiled(db, acc.(ledger := ledger))
  {
    var b := acc.(ledger := ledger);
    forall w | w in db.workloads ensures Tiled(db, b, w) {
      assert Tiled(db, acc, w);
      if db.workloads[w].startedAt.Some? && db.workloads[w].node.Some? {
        forall g: GpuId ensures TiledOn(db, b, w, g) { assert TiledOn(db, acc, w, g); }
      }
    }
  }

  ghost predicate Fine(s: Whole) { Good(s.sys) && AllTiled(s.sys.db, s.acc) && Charges(s.acc) && Priced(s.acc) }

  lemma ActFine(s: Whole, act: Act)
    requires Fine(s) && Allowed(s, act)
    ensures Fine(After(s, act))
  {
    match act
    case Control(step) =>
      StepGood(s.sys, step);
      ControlAllTiled(s.sys, step, s.acc);
    case Meter(w, gs, rates, now) =>
      MeterTiled(s.sys.db, s.acc, w, gs, rates, now);
      MeteredCharges(s.sys.db, s.acc, w, gs, rates, now);
      MeteredPriced(s.sys.db, s.acc, w, gs, rates, now);
    case Credit(org, amount, now) =>
      CreditCharges(s.acc, org, amount, now);
      LedgerApart(s.sys.db, s.acc, Post(s.acc.ledger, org, amount, None, now));
      forall k | 0 <= k < |s.acc.usage| ensures PricedAt(After(s, act).acc, k) { assert PricedAt(s.acc, k); }
  }

  // ----- histories

  ghost predicate CanAct(s: Whole, t: Whole, timely: bool) {
    exists act :: Allowed(s, act) && (timely ==> OnTime(s, act)) && After(s, act) == t
  }

  /** Any interleaving from the empty system; a timely one reads a clock that never runs back. */
  ghost predicate IsHistory(run: seq<Whole>, timely: bool) {
    && |run| > 0 && run[0].sys == START && run[0].acc == NO_ACCOUNTS
    && forall i | 0 <= i < |run| - 1 :: ActsAt(run, i, timely)
  }

  ghost predicate ActsAt(run: seq<Whole>, i: nat, timely: bool)
    requires i + 1 < |run|
  {
    CanAct(run[i], run[i + 1], timely)
  }

  lemma StartFine(s: Whole)
    requires s.sys == START && s.acc == NO_ACCOUNTS
    ensures Fine(s)
  {
    assert forall w, g :: !Holds(EMPTY, w, g);
  }

  lemma {:induction false} HistoryFine(run: seq<Whole>, timely: bool, i: nat)
    requires IsHistory(run, timely) && i < |run|
    ensures Fine(run[i])
  {
    if i == 0 {
      StartFine(run[0]);
    } else {
      HistoryFine(run, timely, i - 1);
      assert ActsAt(run, i - 1, timely);
      var act :| Allowed(run[i - 1], act) && (timely ==> OnTime(run[i - 1], act)) && After(run[i - 1], act) == run[i];
      ActFine(run[i - 1], act);
    }
  }

  /** Metering tiles time: at any moment, for each GPU of a started workload whose node stands,
      the periods billed form a gap-free, overlap-free chain from started_at to the watermark,
      whatever the schedule and whatever the clocks said; no other GPU is billed for it. */
  lemma TimeIsTiled(run: seq<Whole>, i: nat, w: WorkloadId, g: GpuId)
    requires IsHistory(run, false) && i < |run| && w in run[i].sys.db.workloads
    requires var row := run[i].sys.db.workloads[w]; row.startedAt.Some? && row.node.Some?
    ensures var db, acc := run[i].sys.db, run[i].acc;
            var row, periods := db.workloads[w], Periods(acc.usage, w, g);
            if g in Attached(db, w) then
              Tile(periods, row.startedAt.value, BilledTo(row, MarkOf(acc.mark, w))) &&
              Elapsed(periods) == BilledTo(row, MarkOf(acc.mark, w)) - row.startedAt.value
            else periods == []
  {
    HistoryFine(run, false, i);
    var db, acc := run[i].sys.db, run[i].acc;
    assert Tiled(db, acc, w);
    assert TiledOn(db, acc, w, g);
    if g in Attached(db, w) {
      TileElapsed(Periods(acc.usage, w, g), db.workloads[w].startedAt.value,
        BilledTo(db.workloads[w], MarkOf(acc.mark, w)));
    }
  }

  /** A workload that never started is never billed. */
  lemma NothingBeforeStart(run: seq<Whole>, i: nat, w: WorkloadId, g: GpuId)
    requires IsHistory(run, false) && i < |run|
    requires w in run[i].sys.db.workloads ==> run[i].sys.db.workloads[w].startedAt.None?
    ensures Periods(run[i].acc.usage, w, g) == []
  {
    HistoryFine(run, false, i);
    if w in run[i].sys.db.workloads { assert Tiled(run[i].sys.db, run[i].acc, w); }
    assert Unbilled(run[i].acc, w);
  }

  /** One settlement, on any clocks: it brings the total to exactly stopped_at - started_at if and
      only if what was billed before does not reach past stopped_at. */
  lemma SettlementNeedsClock(run: seq<Whole>, i: nat, w: WorkloadId, gs: seq<GpuId>, rates: Rates, now: Time, g: GpuId)
    requires IsHistory(run, false) && i < |run| && w in run[i].sys.db.workloads
    requires var row := run[i].sys.db.workloads[w]; row.startedAt.Some? && row.node.Some? && row.status.Terminal()
    requires Allowed(run[i], Meter(w, gs, rates, now)) && g in Attached(run[i].sys.db, w)
    ensures var row, t := run[i].sys.db.workloads[w], After(run[i], Meter(w, gs, rates, now));
            row.stoppedAt.Some? &&
            (Elapsed(Periods(t.acc.usage, w, g)) == row.stoppedAt.value - row.startedAt.value <==>
             BilledTo(row, MarkOf(run[i].acc.mark, w)) <= row.stoppedAt.value)
  {
    HistoryFine(run, false, i);
    var s, t := run[i], After(run[i], Meter(w, gs, rates, now));
    ActFine(s, Meter(w, gs, rates, now));
    var row := s.sys.db.workloads[w];
    assert Tiled(t.sys.db, t.acc, w);
    assert TiledOn(t.sys.db, t.acc, w, g);
    TileElapsed(Periods(t.acc.usage, w, g), row.startedAt.value, BilledTo(row, MarkOf(t.acc.mark, w)));
  }

  /** What an organization's records are worth: its GPU seconds at their rates per second, times 3600. */
  function Worth(usage: seq<Usage>, costs: seq<Cost>, org: OrgId): real
    requires |usage| == |costs|
  {
    if usage == [] then 0.0
    else
      var n := |usage| - 1;
      Worth(usage[..n], costs[..n], org) + if usage[n].org == org then usage[n].seconds as real * costs[n].rate else 0.0
  }

  lemma {:induction false} WorthIsCost(usage: seq<Usage>, costs: seq<Cost>, org: OrgId)
    requires |usage| == |costs|
    requires forall k | 0 <= k < |usage| :: costs[k].org == usage[k].org && HourlyPrice(usage[k], costs[k])
    ensures 3600.0 * CostOf(costs, org) == Worth(usage, costs, org)
  {
    if usage != [] {
      var n := |usage| - 1;
      WorthIsCost(usage[..n], costs[..n], org);
      assert HourlyPrice(usage[n], costs[n]);
    }
  }

  /** The ledger over any history: every row carries the sum of its organization's deltas so far,
      the balance is what was granted less what was spent, and what was spent is 83 times the
      organization's costs, which are its GPU seconds at an hourly rate. */
  lemma LedgerConserves(run: seq<Whole>, i: nat, org: OrgId)
    requires IsHistory(run, false) && i < |run|
    ensures var acc := run[i].acc;
            (forall k | 0 <= k < |acc.ledger| ::
              acc.ledger[k].balance == Deltas(acc.ledger[..k + 1], acc.ledger[k].org)) &&
            Latest(acc.ledger, org) == Granted(acc.ledger, org) - Spent(acc.ledger, org) &&
            Spent(acc.ledger, org) == 83.0 * CostOf(acc.costs, org) &&
            |acc.costs| == |acc.usage| && 3600.0 * Spent(acc.ledger, org) == 83.0 * Worth(acc.usage, acc.costs, org)
  {
    HistoryFine(run, false, i);
    forall k | 0 <= k < |run[i].acc.usage|
      ensures run[i].acc.costs[k].org == run[i].acc.usage[k].org
      ensures HourlyPrice(run[i].acc.usage[k], run[i].acc.costs[k])
    {
      assert PricedAt(run[i].acc, k);
    }
    WorthIsCost(run[i].acc.usage, run[i].acc.costs, org);
    var acc := run[i].acc;
    forall k | 0 <= k < |acc.ledger|
      ensures acc.ledger[k].balance == Deltas(acc.ledger[..k + 1], acc.ledger[k].org)
    {
      assert BalancedAt(acc.ledger, k);
    }
    BalanceIsGrantedLessSpent(acc.ledger, org);
    assert ChargesOf(acc, org);
  }

  /** Usage and cost records are only appended. */
  lemma RecordsAppended(s: Whole, act: Act)
    requires Allowed(s, act)
    ensures s.acc.usage <= After(s, act).acc.usage && s.acc.costs <= After(s, act).acc.costs
  {
  }

  /** The act that wrote record k billed it at the rate in force, for the record's organization and
      the GPU's model, at the end of the record's period. */
  ghost predicate WroteAtRate(s: Whole, t: Whole, act: Act, k: nat, u: Usage, c: Cost) {
    && act.Meter? && Allowed(s, act) && After(s, act) == t
    && |s.acc.usage| <= k < |t.acc.usage| && u.workload == act.w
    && act.w in s.sys.db.workloads && u.org == s.sys.db.workloads[act.w].org && (act.w, u.gpu) in s.sys.db.attachments
    && u.gpu in s.sys.db.gpus && c.rate == act.rates(u.org, s.sys.db.gpus[u.gpu].model, u.to)
  }

  lemma NewRecordsAtRate(s: Whole, act: Act, k: nat)
    requires Allowed(s, act) && Priced(s.acc) && |s.acc.usage| <= k < |After(s, act).acc.usage|
    ensures |After(s, act).acc.costs| == |After(s, act).acc.usage|
    ensures WroteAtRate(s, After(s, act), act, k, After(s, act).acc.usage[k], After(s, act).acc.costs[k])
  {
    var db, first := s.sys.db, |s.acc.usage|;
    var span := SliceOf(db, s.acc, act.w, act.now).value;
    var org := db.workloads[act.w].org;
    assert act.gs[k - first] in act.gs && act.gs[k - first] in Attached(db, act.w);
    assert After(s, act).acc.usage[k] == UsageRow(org, act.w, act.gs[k - first], span);
    assert After(s, act).acc.costs[k] == CostRow(db, act.rates, org, k, act.gs[k - first], span);
  }

  ghost predicate WrittenAt(run: seq<Whole>, m: nat, k: nat, u: Usage, c: Cost)
    requires m + 1 < |run|
  {
    WrittenBetween(run[m], run[m + 1], k, u, c)
  }

  ghost predicate WrittenBetween(s: Whole, t: Whole, k: nat, u: Usage, c: Cost) {
    exists act :: WroteAtRate(s, t, act, k, u, c)
  }

  /** A record of the later state is an older one, or was written by the act in between. */
  lemma OldOrWritten(s: Whole, t: Whole, k: nat)
    requires Priced(s.acc) && Priced(t.acc) && CanAct(s, t, false) && k < |t.acc.usage|
    ensures if k < |s.acc.usage| then t.acc.usage[k] == s.acc.usage[k] && t.acc.costs[k] == s.acc.costs[k]
            else WrittenBetween(s, t, k, t.acc.usage[k], t.acc.costs[k])
  {
    var act :| Allowed(s, act) && After(s, act) == t;
    if k < |s.acc.usage| { RecordsAppended(s, act); } else { NewRecordsAtRate(s, act, k); }
  }

  lemma {:induction false} WrittenOnce(run: seq<Whole>, i: nat, k: nat) returns (m: nat)
    requires IsHistory(run, false) && i < |run| && k < |run[i].acc.usage|
    ensures |run[i].acc.costs| == |run[i].acc.usage| && m < i
    ensures WrittenAt(run, m, k, run[i].acc.usage[k], run[i].acc.costs[k])
    decreases i
  {
    HistoryFine(run, false, i);
    m := 0;
    if i == 0 {
      assert false;
    } else {
      HistoryFine(run, false, i - 1);
      assert ActsAt(run, i - 1, false);
      OldOrWritten(run[i - 1], run[i], k);
      if k < |run[i - 1].acc.usage| { m := WrittenOnce(run, i - 1, k); } else { m := i - 1; }
    }
  }

  /** The seconds charged are the period's, without the last fraction. */
  predicate WholeSecondsOf(u: Usage) { SECOND * u.seconds <= u.to - u.from < SECOND * (u.seconds + 1) }

  /** Every cost record prices its own usage record: its organization, the seconds charged, and the
      rate that was in force, when it was metered, for that organization and the GPU's model at the
      end of the period. */
  lemma CostsPriceUsage(run: seq<Whole>, i: nat, k: nat)
    requires IsHistory(run, false) && i < |run| && k < |run[i].acc.usage|
    ensures var acc := run[i].acc;
            |acc.costs| == |acc.usage| && acc.costs[k].usage == k && acc.costs[k].org == acc.usage[k].org &&
            3600.0 * acc.costs[k].amount == acc.usage[k].seconds as real * acc.costs[k].rate &&
            WholeSecondsOf(acc.usage[k]) &&
            exists m: nat :: m < i && WrittenAt(run, m, k, acc.usage[k], acc.costs[k])
  {
    HistoryFine(run, false, i);
    assert PricedAt(run[i].acc, k);
    var m := WrittenOnce(run, i, k);
  }
}
