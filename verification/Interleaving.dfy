/** Placement at the granularity of its row locks.  Any number of placement transactions scan
    without locks, claim node by node with FOR UPDATE SKIP LOCKED, and commit or roll back,
    interleaved with every other transaction of the control plane.  Each step of this finer
    system is a step of the coarse one or changes nothing it can see. */
module Interleaving {
  import opened Tables
  import opened Transitions
  import opened Books
  import opened Runs
  import opened FirstFit

  type TxId = nat

  datatype Job = LaunchJob(w: WorkloadId, org: OrgId, gpuType: string, count: nat)
               | PromoteJob(w: WorkloadId, org: OrgId, gpuType: string, count: nat)

  /** One node of the scan, as it looked when the scan ran. */
  datatype NodeRows = NodeRows(node: NodeId, rows: seq<GpuId>)

  datatype Tx = Tx(job: Job, todo: seq<NodeRows>, locks: set<GpuId>, claimed: Option<Placement>)

  datatype Fine = Fine(sys: System, open: map<TxId, Tx>)

  const FINE_START := Fine(Runs.START, map[])

  datatype FineStep =
    | Begin(t: TxId, job: Job, scan: seq<NodeRows>)
    | ClaimNode(t: TxId)
    | CommitPlaced(t: TxId, c: CommandId, now: Time)
    | CommitQueued(t: TxId, now: Time)
    | Rollback(t: TxId)
    | Other(step: Step)

  /** Rows locked by anyone but t. */
  function LockedByOthers(f: Fine, t: TxId): set<GpuId> {
    set u, g | u in f.open && u != t && g in f.open[u].locks :: g
  }

  predicate IsPlacement(step: Step) { step.Queue? || step.Place? || step.PromoteOne? }

  /** The scan reads committed rows, grouped by node. */
  ghost predicate ScanOf(db: Db, job: Job, scan: seq<NodeRows>) {
    forall nr | nr in scan :: forall g | g in nr.rows ::
      Candidate(db, job.org, job.gpuType, g) && db.gpus[g].node == nr.node
  }

  /** A promotion asks for what the queued row asks for. */
  predicate IsFor(row: Workload, job: Job) {
    row.org == job.org && row.gpuType == job.gpuType && row.count == job.count
  }

  /** Ids are fresh: of workloads being launched, and of GPUs still named by an open scan.  A
      write to a locked row waits, so a step that would change one is not possible yet. */
  ghost predicate FineLegal(f: Fine, step: FineStep) {
    match step
    case Begin(t, job, scan) =>
      t !in f.open && job.count >= 1 && ScanOf(f.sys.db, job, scan) &&
      (job.LaunchJob? ==> job.w !in f.sys.db.workloads &&
                          forall u | u in f.open :: f.open[u].job.LaunchJob? ==> f.open[u].job.w != job.w) &&
      (job.PromoteJob? ==> job.w in f.sys.db.workloads && IsFor(f.sys.db.workloads[job.w], job))
    case CommitPlaced(_, c, _) => c !in f.sys.spent
    case Other(s) =>
      !IsPlacement(s) && Legal(f.sys, s) &&
      (s.ReportGpu? ==> forall u | u in f.open :: forall nr | nr in f.open[u].todo :: s.g !in nr.rows) &&
      (s.Remove? ==> forall u, g | u in f.open && g in f.open[u].locks :: RowUnchanged(f.sys.db, Next(f.sys, s).db, g))
    case _ => true
  }

  ghost predicate RowUnchanged(a: Db, b: Db, g: GpuId) {
    g in a.gpus ==> g in b.gpus && b.gpus[g] == a.gpus[g]
  }

  function ClaimFrom(f: Fine, t: TxId): Tx
    requires t in f.open && f.open[t].todo != []
  {
    var tx := f.open[t];
    var nr := tx.todo[0];
    if |nr.rows| < tx.job.count then tx.(todo := tx.todo[1..])
    else
      var taken := Claim(f.sys.db, nr.rows, LockedByOthers(f, t), tx.job.count);
      var locks := tx.locks + Elements(taken);
      if |taken| == tx.job.count then tx.(locks := locks, claimed := Some(Placement(nr.node, Elements(taken))))
      else tx.(todo := tx.todo[1..], locks := locks)
  }

  /** What committing a claim does to the tables. */
  function CommitTx(f: Fine, t: TxId, c: CommandId, now: Time): Result<Db>
    requires t in f.open && f.open[t].claimed.Some?
  {
    var tx := f.open[t];
    match tx.job
    case LaunchJob(w, org, gpuType, count) => LaunchPlaced(f.sys.db, w, org, gpuType, count, tx.claimed.value, c, now)
    case PromoteJob(w, _, _, _) => Promote(f.sys.db, w, tx.claimed.value, c, now)
  }

  function FineNext(f: Fine, step: FineStep): Fine {
    match step
    case Begin(t, job, scan) => f.(open := f.open[t := Tx(job, scan, {}, None)])
    case ClaimNode(t) =>
      if t in f.open && f.open[t].claimed.None? && f.open[t].todo != [] then
        f.(open := f.open[t := ClaimFrom(f, t)])
      else f
    case CommitPlaced(t, c, now) =>
      if t in f.open && f.open[t].claimed.Some? then
        var d := CommitTx(f, t, c, now);
        Fine(if d.Ok? then System(d.value, f.sys.reports, f.sys.spent + {c}) else f.sys, f.open - {t})
      else f
    case CommitQueued(t, now) =>
      if t in f.open && f.open[t].claimed.None? && f.open[t].todo == [] then
        var job := f.open[t].job;
        Fine(if job.LaunchJob? then f.sys.(db := LaunchQueued(f.sys.db, job.w, job.org, job.gpuType, job.count, now))
             else f.sys,
             f.open - {t})
      else f
    case Rollback(t) => f.(open := f.open - {t})
    case Other(s) => f.(sys := Next(f.sys, s))
  }

  // ----- the invariant

  /** What one open transaction relies on: its locked rows are there, idle and unattached; its
      claim is locked, complete and on one node; its scan still names rows of the right node, and
      claim and scan name only GPUs of its own organization and type. */
  ghost predicate TxSound(db: Db, tx: Tx) {
    && (forall g | g in tx.locks :: g in db.gpus && db.gpus[g].status.Idle?)
    && (tx.claimed.Some? ==>
          var p := tx.claimed.value;
          |p.gpus| == tx.job.count && p.gpus <= tx.locks && Suited(db, p, tx.job.org, tx.job.gpuType) &&
          forall g | g in p.gpus :: db.gpus[g].node == p.node)
    && (forall nr | nr in tx.todo :: forall g | g in nr.rows :: RowFor(db, tx.job, nr.node, g))
    && tx.job.count >= 1
    && (tx.job.LaunchJob? ==> tx.job.w !in db.workloads)
    && (tx.job.PromoteJob? ==> tx.job.w in db.workloads && IsFor(db.workloads[tx.job.w], tx.job))
  }

  predicate RowFor(db: Db, job: Job, n: NodeId, g: GpuId) {
    (g in db.gpus ==> db.gpus[g].node == n) && SuitedGpu(db, g, job.org, job.gpuType)
  }

  ghost predicate FineGood(f: Fine) {
    && Good(f.sys)
    && (forall t | t in f.open :: TxSound(f.sys.db, f.open[t]))
    && (forall t, u | t in f.open && u in f.open && t != u :: Apart(f.open[t], f.open[u]))
  }

  ghost predicate Apart(a: Tx, b: Tx) {
    a.locks !! b.locks && (a.job.LaunchJob? && b.job.LaunchJob? ==> a.job.w != b.job.w)
  }

  lemma ReportLeavesIdle(db: Db, r: Inflight, c: CommandId, now: Time, g: GpuId)
    requires Sound(db) && ReportUsable(db, r) && r.Loaded? && g in db.gpus && db.gpus[g].status.Idle?
    ensures RowUnchanged(db, ApplyReport(db, r, c, now), g)
  {
    if ActiveIn(db, r.workload) {
      forall h | h in r.gpus ensures h in db.gpus && db.gpus[h].status.InUse? { assert Holds(db, r.workload, h); }
    }
  }

  /** No transaction but a node removal ever touches a locked row: reports and sweeps write
      GPUs that are in use, and those are never locked. */
  lemma IdleRowsUntouched(s: System, step: Step, g: GpuId)
    requires Good(s) && Legal(s, step) && !IsPlacement(step) && !step.Remove?
    requires g in s.db.gpus && s.db.gpus[g].status.Idle?
    ensures RowUnchanged(s.db, Next(s, step).db, g)
  {
    if step.Apply? {
      if step.r in s.reports && s.reports[step.r].Loaded? {
        assert ReportUsable(s.db, s.reports[step.r]);
        ReportLeavesIdle(s.db, s.reports[step.r], step.c, step.now, g);
      }
    } else if step.SweepAll? {
      SweepTables(s.db, step.now);
    }
  }

  /** GPUs never move between nodes or organizations, and only inventory reports add any. */
  ghost predicate StaysPut(a: Db, b: Db, g: GpuId) {
    g in b.gpus ==> g in a.gpus && b.gpus[g] == a.gpus[g].(status := b.gpus[g].status)
  }

  /** A transaction stays sound while its locked rows do not change. */
  lemma StaysSound(a: Db, b: Db, tx: Tx)
    requires TxSound(a, tx)
    requires forall g | g in tx.locks :: RowUnchanged(a, b, g)
    requires forall nr | nr in tx.todo :: forall g | g in nr.rows :: StaysPut(a, b, g)
    requires Onward(a, b)
    requires tx.job.LaunchJob? ==> tx.job.w !in b.workloads
    ensures TxSound(b, tx)
  {
    if tx.job.PromoteJob? { assert RowOnward(a, b, tx.job.w); }
    forall nr | nr in tx.todo ensures forall g | g in nr.rows :: RowFor(b, tx.job, nr.node, g) {
      forall g | g in nr.rows ensures RowFor(b, tx.job, nr.node, g) { assert RowFor(a, tx.job, nr.node, g); }
    }
  }

  lemma ClaimIsGood(f: Fine, t: TxId)
    requires FineGood(f) && t in f.open && f.open[t].claimed.Some?
    ensures GoodPlacement(f.sys.db, f.open[t].claimed.value, f.open[t].job.count)
    ensures Suited(f.sys.db, f.open[t].claimed.value, f.open[t].job.org, f.open[t].job.gpuType)
  {
    var p := f.open[t].claimed.value;
    assert p.gpus != {};
    var g :| g in p.gpus;
    assert f.sys.db.gpus[g].node in f.sys.db.nodes;
  }

  /** The "gpu claim raced" guard and the unique index can never fire: a launch that claimed its
      GPUs commits, and a promotion fails only because the workload left the queue. */
  lemma GuardNeverFires(f: Fine, t: TxId, c: CommandId, now: Time)
    requires FineGood(f) && t in f.open && f.open[t].claimed.Some? && c !in f.sys.spent
    ensures CommitTx(f, t, c, now).Err? <==>
            f.open[t].job.PromoteJob? && !f.sys.db.workloads[f.open[t].job.w].status.Queued?
    ensures CommitTx(f, t, c, now).Err? ==> CommitTx(f, t, c, now).error == NotQueued
  {
    ClaimIsGood(f, t);
    var db, p := f.sys.db, f.open[t].claimed.value;
    match f.open[t].job
    case LaunchJob(w, org, gpuType, count) => LaunchPlacedSound(db, w, org, gpuType, count, p, c, now);
    case PromoteJob(w, _, _, _) => if db.workloads[w].status.Queued? { PromoteSound(db, w, p, c, now); }
  }

  /** The coarse step a fine step amounts to, if any. */
  function Abstract(f: Fine, step: FineStep): Option<Step> {
    match step
    case CommitPlaced(t, c, now) =>
      if t in f.open && f.open[t].claimed.Some? then
        match f.open[t].job
        case LaunchJob(w, org, gpuType, count) => Some(Place(w, org, gpuType, count, f.open[t].claimed.value, c, now))
        case PromoteJob(w, _, _, _) =>
          if CommitTx(f, t, c, now).Ok? then Some(PromoteOne(w, f.open[t].claimed.value, c, now)) else None
      else None
    case CommitQueued(t, now) =>
      if t in f.open && f.open[t].claimed.None? && f.open[t].todo == [] && f.open[t].job.LaunchJob? then
        var job := f.open[t].job;
        Some(Queue(job.w, job.org, job.gpuType, job.count, now))
      else None
    case Other(s) => Some(s)
    case _ => None
  }

  /** Refinement: a fine step is a legal coarse step, or leaves the coarse system as it is. */
  lemma Refines(f: Fine, step: FineStep)
    requires FineGood(f) && FineLegal(f, step)
    ensures match Abstract(f, step)
            case Some(s) => Legal(f.sys, s) && FineNext(f, step).sys == Next(f.sys, s)
            case None => FineNext(f, step).sys == f.sys
  {
    match step
    case CommitPlaced(t, c, now) =>
      if t in f.open && f.open[t].claimed.Some? {
        ClaimIsGood(f, t);
        GuardNeverFires(f, t, c, now);
      }
    case _ =>
  }

  // ----- the invariant is kept

  lemma ClaimKeeps(f: Fine, t: TxId)
    requires FineGood(f) && t in f.open && f.open[t].claimed.None? && f.open[t].todo != []
    ensures TxSound(f.sys.db, ClaimFrom(f, t))
    ensures ClaimFrom(f, t).job == f.open[t].job
    ensures forall u | u in f.open && u != t :: f.open[u].locks !! ClaimFrom(f, t).locks
  {
    var tx := f.open[t];
    var nr := tx.todo[0];
    if |nr.rows| >= tx.job.count {
      var taken := Claim(f.sys.db, nr.rows, LockedByOthers(f, t), tx.job.count);
      DistinctCount(taken);
      forall u | u in f.open && u != t ensures f.open[u].locks !! Elements(taken) {
        forall g | g in f.open[u].locks ensures g !in taken { assert g in LockedByOthers(f, t); }
      }
      forall u | u in f.open && u != t ensures f.open[u].locks !! tx.locks { assert Apart(f.open[t], f.open[u]); }
    }
  }

  lemma AttachTouchesOwn(db: Db, w: WorkloadId, gs: set<GpuId>)
    requires Attach(db, w, gs).Ok?
    ensures var d := Attach(db, w, gs).value;
            d.workloads == db.workloads && d.gpus.Keys == db.gpus.Keys &&
            forall g | g in db.gpus :: d.gpus[g] == if g in gs then db.gpus[g].(status := InUse) else db.gpus[g]
  {
  }

  /** Only the committing transaction's own GPUs change. */
  lemma CommitTouchesOwn(f: Fine, t: TxId, c: CommandId, now: Time)
    requires t in f.open && f.open[t].claimed.Some? && CommitTx(f, t, c, now).Ok?
    requires f.open[t].job.PromoteJob? ==> f.open[t].job.w in f.sys.db.workloads
    ensures var a, b, p := f.sys.db, CommitTx(f, t, c, now).value, f.open[t].claimed.value;
            (forall g | g !in p.gpus :: RowUnchanged(a, b, g)) && b.gpus.Keys == a.gpus.Keys &&
            (forall g | g in a.gpus :: StaysPut(a, b, g)) &&
            b.workloads.Keys == a.workloads.Keys + {f.open[t].job.w}
  {
    var db, p := f.sys.db, f.open[t].claimed.value;
    match f.open[t].job
    case LaunchJob(w, org, gpuType, count) =>
      var row := NewWorkload(org, gpuType, count, Pending, Some(p.node), now, None);
      AttachTouchesOwn(db.(workloads := db.workloads[w := row]), w, p.gpus);
    case PromoteJob(w, _, _, _) =>
      var row := db.workloads[w].(status := Pending, node := Some(p.node));
      AttachTouchesOwn(db.(workloads := db.workloads[w := row]), w, p.gpus);
  }

  lemma RemovalStaysPut(db: Db, org: OrgId, n: NodeId, force: bool, now: Time, g: GpuId)
    requires RemoveNode(db, org, n, force, now).Ok?
    ensures StaysPut(db, RemoveNode(db, org, n, force, now).value, g)
  {
  }

  lemma ApplyStaysPut(db: Db, r: Inflight, c: CommandId, now: Time, g: GpuId)
    requires r.Loaded?
    ensures StaysPut(db, ApplyReport(db, r, c, now), g)
  {
  }

  lemma GpusStayPut(s: System, step: Step, g: GpuId)
    requires !IsPlacement(step) && !(step.ReportGpu? && g == step.g)
    ensures StaysPut(s.db, Next(s, step).db, g)
  {
    match step
    case SweepAll(now) => SweepTables(s.db, now);
    case Apply(r, c, now) =>
      if r in s.reports && s.reports[r].Loaded? { ApplyStaysPut(s.db, s.reports[r], c, now, g); }
    case Remove(n, org, force, now) =>
      if RemoveNode(s.db, org, n, force, now).Ok? { RemovalStaysPut(s.db, org, n, force, now, g); }
    case _ =>
  }

  lemma ReportKeepsRows(db: Db, r: Inflight, c: CommandId, now: Time)
    requires r.Loaded?
    ensures ApplyReport(db, r, c, now).workloads.Keys == db.workloads.Keys
  {
  }

  lemma RemovalKeepsRows(db: Db, org: OrgId, n: NodeId, force: bool, now: Time)
    requires RemoveNode(db, org, n, force, now).Ok?
    ensures RemoveNode(db, org, n, force, now).value.workloads.Keys == db.workloads.Keys
  {
  }

  lemma NoNewWorkload(s: System, step: Step)
    requires Good(s) && !IsPlacement(step)
    ensures Next(s, step).db.workloads.Keys == s.db.workloads.Keys
  {
    if step.SweepAll? { SweepTables(s.db, step.now); }
    else if step.Apply? {
      if step.r in s.reports && s.reports[step.r].Loaded? {
        ReportKeepsRows(s.db, s.reports[step.r], step.c, step.now);
      }
    } else if step.Remove? {
      if RemoveNode(s.db, step.org, step.n, step.force, step.now).Ok? {
        RemovalKeepsRows(s.db, step.org, step.n, step.force, step.now);
      }
    }
  }

  lemma OtherKeeps(f: Fine, s: Step)
    requires FineGood(f) && FineLegal(f, Other(s))
    ensures FineGood(FineNext(f, Other(s)))
  {
    StepGood(f.sys, s);
    NoNewWorkload(f.sys, s);
    var a, b := f.sys.db, Next(f.sys, s).db;
    forall t | t in f.open ensures TxSound(b, f.open[t]) {
      forall g | g in f.open[t].locks ensures RowUnchanged(a, b, g) {
        if !s.Remove? { IdleRowsUntouched(f.sys, s, g); }
      }
      forall nr | nr in f.open[t].todo
        ensures forall g | g in nr.rows :: StaysPut(a, b, g)
      {
        forall g | g in nr.rows ensures StaysPut(a, b, g) {
          GpusStayPut(f.sys, s, g);
        }
      }
      StaysSound(a, b, f.open[t]);
    }
  }

  /** A commit of t leaves another open transaction sound. */
  lemma PlacedLeaves(f: Fine, t: TxId, c: CommandId, now: Time, u: TxId)
    requires FineGood(f) && FineLegal(f, CommitPlaced(t, c, now)) && t in f.open && f.open[t].claimed.Some?
    requires CommitTx(f, t, c, now).Ok? && Onward(f.sys.db, CommitTx(f, t, c, now).value)
    requires u in f.open && u != t
    ensures TxSound(CommitTx(f, t, c, now).value, f.open[u])
  {
    assert Apart(f.open[t], f.open[u]);
    CommitTouchesOwn(f, t, c, now);
    StaysSound(f.sys.db, CommitTx(f, t, c, now).value, f.open[u]);
  }

  lemma QueuedLeaves(f: Fine, t: TxId, now: Time, u: TxId)
    requires FineGood(f) && t in f.open && u in f.open && u != t && f.open[t].job.LaunchJob?
    requires var job := f.open[t].job;
             Onward(f.sys.db, LaunchQueued(f.sys.db, job.w, job.org, job.gpuType, job.count, now))
    ensures var job := f.open[t].job;
            TxSound(LaunchQueued(f.sys.db, job.w, job.org, job.gpuType, job.count, now), f.open[u])
  {
    var job := f.open[t].job;
    assert Apart(f.open[t], f.open[u]);
    StaysSound(f.sys.db, LaunchQueued(f.sys.db, job.w, job.org, job.gpuType, job.count, now), f.open[u]);
  }

  lemma CommitKeeps(f: Fine, step: FineStep)
    requires FineGood(f) && FineLegal(f, step) && (step.CommitPlaced? || step.CommitQueued?)
    ensures FineGood(FineNext(f, step))
  {
    Refines(f, step);
    var h := FineNext(f, step);
    if Abstract(f, step).Some? {
      StepGood(f.sys, Abstract(f, step).value);
      forall u | u in h.open ensures TxSound(h.sys.db, h.open[u]) {
        if step.CommitPlaced? { PlacedLeaves(f, step.t, step.c, step.now, u); }
        else { QueuedLeaves(f, step.t, step.now, u); }
      }
    }
  }

  lemma FineStepGood(f: Fine, step: FineStep)
    requires FineGood(f) && FineLegal(f, step)
    ensures FineGood(FineNext(f, step))
  {
    match step
    case Begin(t, job, scan) =>
    case ClaimNode(t) =>
      if t in f.open && f.open[t].claimed.None? && f.open[t].todo != [] {
        ClaimKeeps(f, t);
        var h := FineNext(f, step);
        forall u, v | u in h.open && v in h.open && u != v ensures Apart(h.open[u], h.open[v]) {
          assert Apart(f.open[u], f.open[v]);
        }
      }
    case CommitPlaced(_, _, _) => CommitKeeps(f, step);
    case CommitQueued(_, _) => CommitKeeps(f, step);
    case Rollback(_) =>
    case Other(s) => OtherKeeps(f, s);
  }

  // ----- runs

  ghost predicate FineCan(f: Fine, h: Fine) { exists step :: FineLegal(f, step) && FineNext(f, step) == h }

  ghost predicate FineAt(run: seq<Fine>, i: nat)
    requires i + 1 < |run|
  {
    FineCan(run[i], run[i + 1])
  }

  ghost predicate IsFineRun(run: seq<Fine>) {
    |run| > 0 && run[0] == FINE_START && forall i | 0 <= i < |run| - 1 :: FineAt(run, i)
  }

  ghost predicate Reachable(s: System) { exists run :: EndsIn(run, s) }

  ghost predicate EndsIn(run: seq<System>, s: System) { IsRun(run) && run[|run| - 1] == s }

  lemma ReachNext(s: System, step: Step)
    requires Reachable(s) && Legal(s, step)
    ensures Reachable(Next(s, step))
  {
    var run :| EndsIn(run, s);
    var longer := run + [Next(s, step)];
    forall i | 0 <= i < |longer| - 1 ensures StepsAt(longer, i) {
      if i < |run| - 1 { assert StepsAt(run, i); }
    }
    assert EndsIn(longer, Next(s, step));
  }

  /** Every state of an interleaved run is sound, and its tables are those of a coarse run: all
      that holds over coarse runs holds at lock granularity too. */
  lemma {:induction false} InterleavedIsCoarse(run: seq<Fine>, i: nat)
    requires IsFineRun(run) && i < |run|
    ensures FineGood(run[i]) && Reachable(run[i].sys)
  {
    if i == 0 {
      assert EndsIn([Runs.START], Runs.START);
      RunGood([Runs.START], 0);
    } else {
      InterleavedIsCoarse(run, i - 1);
      assert FineAt(run, i - 1);
      var step :| FineLegal(run[i - 1], step) && FineNext(run[i - 1], step) == run[i];
      FineStepGood(run[i - 1], step);
      Refines(run[i - 1], step);
      if Abstract(run[i - 1], step).Some? { ReachNext(run[i - 1].sys, Abstract(run[i - 1], step).value); }
    }
  }

  /** Claimed sets of concurrent placements are disjoint, and every claimed GPU is idle and
      unattached in committed state. */
  lemma ClaimsExclusive(run: seq<Fine>, i: nat, t: TxId, g: GpuId)
    requires IsFineRun(run) && i < |run| && t in run[i].open
    requires run[i].open[t].claimed.Some? && g in run[i].open[t].claimed.value.gpus
    ensures g in run[i].sys.db.gpus && run[i].sys.db.gpus[g].status.Idle?
    ensures forall w :: !Holds(run[i].sys.db, w, g)
    ensures forall u | u in run[i].open && u != t && run[i].open[u].claimed.Some? ::
            g !in run[i].open[u].claimed.value.gpus
  {
    InterleavedIsCoarse(run, i);
    var f := run[i];
    forall u | u in f.open && u != t && f.open[u].claimed.Some? ensures g !in f.open[u].claimed.value.gpus {
      assert Apart(f.open[t], f.open[u]);
    }
  }
}
