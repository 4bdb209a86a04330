/** The control plane as one transition system: every transaction, in any order, fed by agent
    reports that may be lost, duplicated or reordered, and what holds over every run. */
module Runs {
  import opened Tables
  import opened Transitions
  import opened Books
  import FirstFit
  import Outbox
  import Agent

  type ReportId = nat

  /** A report being applied.  The gateway reads before it writes, in separate statements:
      first the node check, then the row, then the guarded update. */
  datatype Inflight =
    | Admitted(node: NodeId, workload: WorkloadId, state: WorkloadStatus)
    | Loaded(node: NodeId, workload: WorkloadId, state: WorkloadStatus, seen: WorkloadStatus, gpus: set<GpuId>)

  /** `spent` are the command ids handed out so far: ids are never used twice. */
  datatype System = System(db: Db, reports: map<ReportId, Inflight>, spent: set<CommandId>)

  const START := System(EMPTY, map[], {})

  datatype Step =
    | EnrollNode(n: NodeId, org: OrgId, now: Time)
    | MarkNode(n: NodeId, status: NodeStatus, lastSeen: Option<Time>)
    | ReportGpu(g: GpuId, n: NodeId, index: nat, model: string)
    | Queue(w: WorkloadId, org: OrgId, gpuType: string, count: nat, now: Time)
    | Place(w: WorkloadId, org: OrgId, gpuType: string, count: nat, p: Placement, c: CommandId, now: Time)
    | PromoteOne(w: WorkloadId, p: Placement, c: CommandId, now: Time)
    | Cancel(w: WorkloadId, now: Time)
    | StopOne(w: WorkloadId, reason: StopReason, c: CommandId, now: Time)
    | Admit(r: ReportId, n: NodeId, report: Agent.Report)
    | Load(r: ReportId)
    | Apply(r: ReportId, c: CommandId, now: Time)
    | Lose(r: ReportId)
    | SweepAll(now: Time)
    | Remove(n: NodeId, org: OrgId, force: bool, now: Time)
    | DeliverBatch(n: NodeId, outcomes: Outcomes, now: Time)
    | Connect(n: NodeId, now: Time)
    | AckOne(c: CommandId, ok: bool)

  /** What the environment guarantees: fresh ids, claims that the row locks protect, batches of
      due rows.  Everything else the transactions check themselves. */
  ghost predicate Legal(s: System, step: Step) {
    match step
    case EnrollNode(n, org, _) => n in s.db.nodes ==> s.db.nodes[n].org == org
    case MarkNode(n, _, _) => n in s.db.nodes
    case ReportGpu(_, _, _, _) => true
    case Queue(w, _, _, _, _) => w !in s.db.workloads
    case Place(w, org, gpuType, count, p, c, _) =>
      w !in s.db.workloads && c !in s.spent && GoodPlacement(s.db, p, count) && FirstFit.Suited(s.db, p, org, gpuType)
    case PromoteOne(w, p, c, _) =>
      c !in s.spent && (w in s.db.workloads ==> SuitedTo(s.db, p, s.db.workloads[w]))
    case Cancel(_, _) => true
    case StopOne(_, _, c, _) => c !in s.spent
    case Admit(r, _, _) => r !in s.reports
    case Load(_) => true
    case Apply(_, c, _) => c !in s.spent
    case Lose(_) => true
    case SweepAll(_) => true
    case Remove(_, _, _, _) => true
    case DeliverBatch(n, outcomes, now) => outcomes.Keys <= DueFor(s.db, n, now) && |outcomes| <= Outbox.CLAIM_LIMIT
    case Connect(_, _) => true
    case AckOne(_, _) => true
  }

  ghost predicate SuitedTo(db: Db, p: Placement, row: Workload) {
    GoodPlacement(db, p, row.count) && FirstFit.Suited(db, p, row.org, row.gpuType)
  }

  function Commit(db: Db, r: Result<Db>): Db { if r.Ok? then r.value else db }

  function ApplyReport(db: Db, r: Inflight, c: CommandId, now: Time): Db
    requires r.Loaded?
  {
    match r.state
    case Running => ReportRunning(db, r.node, r.workload, r.seen, c, now)
    case Stopped => ReportTerminal(db, r.workload, Stopped, r.gpus, now)
    case Failed => ReportTerminal(db, r.workload, Failed, r.gpus, now)
    case other => ReportOther(db, r.workload, other)
  }

  function AdmitReport(s: System, r: ReportId, n: NodeId, report: Agent.Report): System {
    match Agent.Handle(Agent.Wire(report))
    case StageEvent(_, _) => s
    case Update(w, state) =>
      if OnNode(s.db, n, w) then s.(reports := s.reports[r := Admitted(n, w, state)]) else s
  }

  function LoadReport(s: System, r: ReportId): System {
    if r in s.reports && s.reports[r].Admitted? && s.reports[r].workload in s.db.workloads then
      var a := s.reports[r];
      s.(reports := s.reports[r := Loaded(a.node, a.workload, a.state, s.db.workloads[a.workload].status,
                                          HeldBy(s.db, a.workload))])
    else s
  }

  function Next(s: System, step: Step): System {
    match step
    case EnrollNode(n, org, now) => s.(db := SetNode(s.db, n, org, Online, Some(now)))
    case MarkNode(n, status, lastSeen) =>
      if n in s.db.nodes then s.(db := SetNode(s.db, n, s.db.nodes[n].org, status, lastSeen)) else s
    case ReportGpu(g, n, index, model) => s.(db := Commit(s.db, AddGpu(s.db, g, n, index, model)))
    case Queue(w, org, gpuType, count, now) => s.(db := LaunchQueued(s.db, w, org, gpuType, count, now))
    case Place(w, org, gpuType, count, p, c, now) =>
      s.(db := Commit(s.db, LaunchPlaced(s.db, w, org, gpuType, count, p, c, now)), spent := s.spent + {c})
    case PromoteOne(w, p, c, now) => s.(db := Commit(s.db, Promote(s.db, w, p, c, now)), spent := s.spent + {c})
    case Cancel(w, now) => s.(db := Commit(s.db, CancelQueued(s.db, w, now)))
    case StopOne(w, reason, c, now) => s.(db := Commit(s.db, Stop(s.db, w, reason, c, now)), spent := s.spent + {c})
    case Admit(r, n, report) => AdmitReport(s, r, n, report)
    case Load(r) => LoadReport(s, r)
    case Apply(r, c, now) =>
      if r in s.reports && s.reports[r].Loaded? then
        System(ApplyReport(s.db, s.reports[r], c, now), s.reports - {r}, s.spent + {c})
      else s
    case Lose(r) => s.(reports := s.reports - {r})
    case SweepAll(now) => s.(db := Sweep(s.db, now))
    case Remove(n, org, force, now) => s.(db := Commit(s.db, RemoveNode(s.db, org, n, force, now)))
    case DeliverBatch(n, outcomes, now) =>
      if outcomes.Keys <= s.db.commands.Keys then
        s.(db := Deliver(s.db, outcomes, AttemptsOf(s.db, outcomes.Keys), now))
      else s
    case Connect(n, now) => s.(db := OnConnect(s.db, n, now))
    case AckOne(c, ok) => s.(db := AckCommand(s.db, c, ok))
  }

  // ----- how a workload may change

  predicate Written(a: Option<Time>, b: Option<Time>) { a.Some? ==> b == a }

  /** One workload's life from one database to a later one. */
  ghost predicate RowOnward(a: Db, b: Db, w: WorkloadId)
    requires w in a.workloads
  {
    w in b.workloads &&
    var r, s := a.workloads[w], b.workloads[w];
    && r.status.Rank() <= s.status.Rank()
    && (r.status.Terminal() ==> s.status == r.status && s.startedAt == r.startedAt)
    && Written(r.startedAt, s.startedAt) && Written(r.stoppedAt, s.stoppedAt)
    && (r.status.Queued? || r.node == s.node || (s.node.None? && s.status.Terminal()))
    && (!r.status.Queued? && s.status.Active() ==> HeldBy(a, w) == HeldBy(b, w))
    && r.count == s.count && r.org == s.org && r.gpuType == s.gpuType
  }

  ghost predicate Onward(a: Db, b: Db) {
    forall w | w in a.workloads :: RowOnward(a, b, w)
  }

  /** A command row that is settled keeps its status for as long as it exists. */
  ghost predicate Settled(a: Db, b: Db) {
    forall c | c in a.commands && c in b.commands ::
      a.commands[c].workload == b.commands[c].workload && a.commands[c].kind == b.commands[c].kind &&
      (!a.commands[c].status.Open() ==> b.commands[c].status == a.commands[c].status)
  }

  /** An in-flight report's reads stay usable: if its workload still lives, it lives on that
      node and holds what was read; a terminal status once read is still there. */
  ghost predicate ReportUsable(db: Db, r: Inflight) {
    && r.workload in db.workloads && !db.workloads[r.workload].status.Queued?
    && Agent.Guarded(r.state)
    && (ActiveIn(db, r.workload) ==> db.workloads[r.workload].node == Some(r.node))
    && (r.Loaded? && r.seen.Terminal() ==> TerminalIn(db, r.workload))
    && (r.Loaded? && ActiveIn(db, r.workload) ==> r.gpus == HeldBy(db, r.workload))
  }

  ghost predicate Good(s: System) {
    && Sound(s.db)
    && (forall r | r in s.reports :: ReportUsable(s.db, s.reports[r]))
    && s.db.commands.Keys <= s.spent
  }

  lemma UsableOnward(a: Db, b: Db, r: Inflight)
    requires ReportUsable(a, r) && Onward(a, b)
    ensures ReportUsable(b, r)
  {
    assert RowOnward(a, b, r.workload);
  }

  lemma OnwardTransitive(a: Db, b: Db, c: Db)
    requires Onward(a, b) && Onward(b, c)
    ensures Onward(a, c)
  {
    forall w | w in a.workloads ensures RowOnward(a, c, w) {
      assert RowOnward(a, b, w);
      assert RowOnward(b, c, w);
    }
  }

  /** Holdings and rows of every workload other than w are untouched. */
  lemma OnlyRow(a: Db, b: Db, w: WorkloadId)
    requires w in b.workloads && b.workloads == a.workloads[w := b.workloads[w]]
    requires a.gpus.Keys == b.gpus.Keys
    requires forall v, g | v != w :: Holds(a, v, g) == Holds(b, v, g)
    requires w in a.workloads ==> RowOnward(a, b, w)
    ensures Onward(a, b)
  {
    forall v | v in a.workloads ensures RowOnward(a, b, v) {
      if v != w {
        assert HeldBy(a, v) == HeldBy(b, v) by {
          forall g: GpuId ensures g in HeldBy(a, v) <==> g in HeldBy(b, v) { assert Holds(a, v, g) == Holds(b, v, g); }
        }
      }
    }
  }

  /** Rewriting one row, with every attachment as it was, moves only that workload. */
  lemma RowRewritten(a: Db, b: Db, w: WorkloadId)
    requires a.attachments == b.attachments && a.gpus == b.gpus
    requires w in b.workloads && b.workloads == a.workloads[w := b.workloads[w]]
    requires w in a.workloads ==>
      var r, s := a.workloads[w], b.workloads[w];
      && r.status.Rank() <= s.status.Rank()
      && (r.status.Terminal() ==> s.status == r.status && s.startedAt == r.startedAt)
      && Written(r.startedAt, s.startedAt) && Written(r.stoppedAt, s.stoppedAt)
      && r.node == s.node && r.count == s.count && r.org == s.org && r.gpuType == s.gpuType
    ensures Onward(a, b)
  {
    forall v, g ensures Holds(a, v, g) == Holds(b, v, g) {}
    assert HeldBy(a, w) == HeldBy(b, w);
    OnlyRow(a, b, w);
  }

  lemma SameWorkloads(a: Db, b: Db)
    requires a.workloads == b.workloads && a.attachments == b.attachments && a.gpus == b.gpus
    ensures Onward(a, b)
  {
    forall w | w in a.workloads ensures RowOnward(a, b, w) {
      assert HeldBy(a, w) == HeldBy(b, w);
    }
  }

  lemma RetiredOnward(a: Db, b: Db, ws: set<WorkloadId>)
    requires Retired(a, b, ws) && Stamped(a)
    requires forall w | w in ws && w in a.workloads ::
      !a.workloads[w].status.Terminal() && a.workloads[w].startedAt == b.workloads[w].startedAt &&
      a.workloads[w].count == b.workloads[w].count && a.workloads[w].org == b.workloads[w].org &&
      a.workloads[w].gpuType == b.workloads[w].gpuType
    ensures Onward(a, b)
  {
    forall w | w in a.workloads ensures RowOnward(a, b, w) {
      if w !in ws {
        assert HeldBy(a, w) == HeldBy(b, w) by {
          forall g: GpuId ensures g in HeldBy(a, w) <==> g in HeldBy(b, w) { assert Holds(b, w, g) == Holds(a, w, g); }
        }
      }
    }
  }

  // ----- each step

  /** Placing w, new or queued, moves no other workload. */
  lemma PlacedOnward(db: Db, w: WorkloadId, row: Workload, p: Placement, c: CommandId, now: Time)
    requires w !in db.workloads ||
             (db.workloads[w].status.Queued? && row == db.workloads[w].(status := Pending, node := Some(p.node)))
    requires row.status.Pending? && row.stoppedAt.None? && row.startedAt.None?
    requires w in db.workloads ==> db.workloads[w].startedAt.None? && db.workloads[w].stoppedAt.None?
    requires Attach(db.(workloads := db.workloads[w := row]), w, p.gpus).Ok?
    ensures Onward(db,
            Enqueue(Attach(db.(workloads := db.workloads[w := row]), w, p.gpus).value, c, p.node, w, LaunchCmd, now))
  {
    var at := Attach(db.(workloads := db.workloads[w := row]), w, p.gpus).value;
    var d := Enqueue(at, c, p.node, w, LaunchCmd, now);
    forall v, g ensures Holds(d, v, g) == Holds(at, v, g) {}
    OnlyRow(db, d, w);
  }

  lemma PlaceStep(db: Db, w: WorkloadId, org: OrgId, gpuType: string, count: nat, p: Placement, c: CommandId, now: Time)
    requires Sound(db) && w !in db.workloads && c !in db.commands && GoodPlacement(db, p, count)
    ensures var d := LaunchPlaced(db, w, org, gpuType, count, p, c, now);
            d.Ok? && Sound(d.value) && Onward(db, d.value) && Settled(db, d.value) &&
            d.value.commands.Keys == db.commands.Keys + {c}
  {
    LaunchPlacedSound(db, w, org, gpuType, count, p, c, now);
    PlacedOnward(db, w, NewWorkload(org, gpuType, count, Pending, Some(p.node), now, None), p, c, now);
  }

  lemma PromoteStep(db: Db, w: WorkloadId, p: Placement, c: CommandId, now: Time)
    requires Sound(db) && c !in db.commands
    requires w in db.workloads && db.workloads[w].status.Queued? && GoodPlacement(db, p, db.workloads[w].count)
    ensures var d := Promote(db, w, p, c, now);
            d.Ok? && Sound(d.value) && Onward(db, d.value) && Settled(db, d.value) &&
            d.value.commands.Keys == db.commands.Keys + {c}
  {
    PromoteSound(db, w, p, c, now);
    PlacedOnward(db, w, db.workloads[w].(status := Pending, node := Some(p.node)), p, c, now);
  }

  lemma QueueStep(db: Db, w: WorkloadId, org: OrgId, gpuType: string, count: nat, now: Time)
    requires Sound(db) && w !in db.workloads
    ensures var d := LaunchQueued(db, w, org, gpuType, count, now);
            Sound(d) && Onward(db, d) && Settled(db, d) && d.commands == db.commands
  {
    var d := LaunchQueued(db, w, org, gpuType, count, now);
    QueuedBooks(db, d, w);
    QueuedOutbox(db, d, w);
    RowRewritten(db, d, w);
  }

  lemma QueuedBooks(db: Db, d: Db, w: WorkloadId)
    requires Booked(db) && w !in db.workloads && w in d.workloads && d.workloads[w].status.Queued?
    requires d == db.(workloads := db.workloads[w := d.workloads[w]])
    ensures Booked(d)
  {
    forall v, g ensures Holds(d, v, g) == Holds(db, v, g) {}
    forall v: WorkloadId ensures HeldBy(d, v) == HeldBy(db, v) {}
  }

  lemma QueuedOutbox(db: Db, d: Db, w: WorkloadId)
    requires Linked(db) && Outboxed(db) && w !in db.workloads && w in d.workloads && d.workloads[w].status.Queued?
    requires d == db.(workloads := db.workloads[w := d.workloads[w]])
    ensures Outboxed(d)
  {
    forall c, v, k ensures IsCommand(d, c, v, k) == IsCommand(db, c, v, k) {}
    forall c, n ensures Standing(d, c, n) == Standing(db, c, n) {}
    forall c | c in d.commands ensures RowSound(d, c) { assert RowSound(db, c); }
  }

  lemma CancelStep(db: Db, w: WorkloadId, now: Time)
    requires Sound(db) && CancelQueued(db, w, now).Ok?
    ensures var d := CancelQueued(db, w, now).value;
            Sound(d) && Onward(db, d) && Settled(db, d) && d.commands == db.commands
  {
    CancelQueuedSound(db, w, now);
    RowRewritten(db, CancelQueued(db, w, now).value, w);
  }

  lemma StopStep(db: Db, w: WorkloadId, reason: StopReason, c: CommandId, now: Time)
    requires Sound(db) && c !in db.commands && Stop(db, w, reason, c, now).Ok?
    ensures var d := Stop(db, w, reason, c, now).value;
            Sound(d) && Onward(db, d) && Settled(db, d) && d.commands.Keys == db.commands.Keys + {c}
  {
    StopSound(db, w, reason, c, now);
    assert ActiveIn(db, w);
    var d := Stop(db, w, reason, c, now).value;
    RowRewritten(db, d, w);
  }

  lemma RunningStep(db: Db, r: Inflight, c: CommandId, now: Time)
    requires Sound(db) && c !in db.commands && ReportUsable(db, r) && r.Loaded?
    ensures var d := ReportRunning(db, r.node, r.workload, r.seen, c, now);
            Sound(d) && Onward(db, d) && Settled(db, d) && d.commands.Keys <= db.commands.Keys + {c}
  {
    var w := r.workload;
    ReportRunningSound(db, r.node, w, r.seen, c, now);
    var d := ReportRunning(db, r.node, w, r.seen, c, now);
    if AcceptsRunning(db, w) { RowRewritten(db, d, w); } else { SameWorkloads(db, d); }
  }

  lemma TerminalOnward(db: Db, r: Inflight, state: WorkloadStatus, now: Time)
    requires Sound(db) && ReportUsable(db, r) && r.Loaded? && state.Terminal()
    ensures Onward(db, ReportTerminal(db, r.workload, state, r.gpus, now))
  {
    var w := r.workload;
    var d := ReportTerminal(db, w, state, r.gpus, now);
    if ActiveIn(db, w) {
      ReportTerminalRetires(db, w, state, r.gpus, now);
      RetiredOnward(db, d, {w});
    } else {
      SameWorkloads(db, d);
    }
  }

  lemma TerminalStep(db: Db, r: Inflight, state: WorkloadStatus, now: Time)
    requires Sound(db) && ReportUsable(db, r) && r.Loaded? && state.Terminal()
    ensures var d := ReportTerminal(db, r.workload, state, r.gpus, now);
            Sound(d) && Onward(db, d) && Settled(db, d) && d.commands == db.commands
  {
    TerminalOnward(db, r, state, now);
    ReportTerminalSound(db, r.workload, state, r.gpus, now);
  }

  lemma SweepOnward(db: Db, now: Time)
    requires Sound(db)
    ensures Onward(db, Sweep(db, now))
  {
    SweepRetires(db, now);
    SweepTables(db, now);
    var ws, d := Reclaimed(db, now), Sweep(db, now);
    forall w | w in ws
      ensures !db.workloads[w].status.Terminal() && d.workloads[w] == FailRow(db.workloads[w], Failure, now)
    {}
    RetiredOnward(db, d, ws);
  }

  lemma SweepSettles(db: Db, now: Time)
    ensures Settled(db, Sweep(db, now)) && Sweep(db, now).commands.Keys == db.commands.Keys
  {
  }

  lemma SweepStep(db: Db, now: Time)
    requires Sound(db)
    ensures var d := Sweep(db, now);
            Sound(d) && Onward(db, d) && Settled(db, d) && d.commands.Keys == db.commands.Keys
  {
    SweepSound(db, now);
    SweepOnward(db, now);
    SweepSettles(db, now);
  }

  lemma RemoveStep(db: Db, org: OrgId, n: NodeId, force: bool, now: Time)
    requires Sound(db) && RemoveNode(db, org, n, force, now).Ok?
    ensures var d := RemoveNode(db, org, n, force, now).value;
            Sound(d) && Onward(db, d) && Settled(db, d) && d.commands.Keys <= db.commands.Keys
  {
    RemoveNodeSound(db, org, n, force, now);
    RemoveNodeHolds(db, org, n, force, now);
    var d := RemoveNode(db, org, n, force, now).value;
    forall w | w in db.workloads ensures RowOnward(db, d, w) {
      if d.workloads[w].status.Active() {
        assert db.workloads[w].node != Some(n);
        assert HeldBy(d, w) == HeldBy(db, w) by {
          forall g: GpuId ensures g in HeldBy(d, w) <==> g in HeldBy(db, w) {
            assert Holds(d, w, g) <==> Holds(db, w, g) && !(g in db.gpus && db.gpus[g].node == n);
            if Holds(db, w, g) { assert db.workloads[w].node == Some(db.gpus[g].node); }
          }
        }
      }
    }
  }

  lemma InventoryStep(db: Db, g: GpuId, n: NodeId, index: nat, model: string)
    requires Sound(db) && AddGpu(db, g, n, index, model).Ok?
    ensures var d := AddGpu(db, g, n, index, model).value;
            Sound(d) && Onward(db, d) && Settled(db, d) && d.commands == db.commands
  {
    AddGpuSound(db, g, n, index, model);
    var d := AddGpu(db, g, n, index, model).value;
    forall w | w in db.workloads ensures RowOnward(db, d, w) {
      assert HeldBy(d, w) == HeldBy(db, w) by {
        forall h: GpuId ensures h in HeldBy(d, w) <==> h in HeldBy(db, w) {
          if Holds(db, w, h) { assert (w, h) in db.attachments && h in db.gpus; }
        }
      }
    }
  }

  lemma CommandStep(db: Db, d: Db)
    requires Sound(db) && RowsKept(db, d) && d == db.(commands := d.commands)
    ensures Sound(d) && Onward(db, d)
  {
    CommandsOnlySound(db, d);
    SameWorkloads(db, d);
  }

  /** MarkSent writes without a status guard; the claim and its row locks are what keeps a
      settled row from coming back. */
  lemma DeliverSettles(db: Db, n: NodeId, outcomes: Outcomes, now: Time)
    requires outcomes.Keys <= DueFor(db, n, now)
    ensures var d := Deliver(db, outcomes, AttemptsOf(db, outcomes.Keys), now);
            Settled(db, d) && RowsKept(db, d)
  {
    var d := Deliver(db, outcomes, AttemptsOf(db, outcomes.Keys), now);
    forall c | c in db.commands
      ensures var r, s := db.commands[c], d.commands[c];
              r.node == s.node && r.workload == s.workload && r.kind == s.kind && r.deliverBy == s.deliverBy &&
              (s == r || (r.status.Open() && !s.status.Expired? && !s.status.Superseded?))
    {
      if c in outcomes { assert c in DueFor(db, n, now); }
    }
  }

  lemma DeliverStep(db: Db, n: NodeId, outcomes: Outcomes, now: Time)
    requires Sound(db) && outcomes.Keys <= DueFor(db, n, now)
    ensures var d := Deliver(db, outcomes, AttemptsOf(db, outcomes.Keys), now);
            Sound(d) && Onward(db, d) && Settled(db, d) && d.commands.Keys == db.commands.Keys
  {
    DeliverSettles(db, n, outcomes, now);
    CommandStep(db, Deliver(db, outcomes, AttemptsOf(db, outcomes.Keys), now));
  }

  lemma ConnectStep(db: Db, n: NodeId, now: Time)
    requires Sound(db)
    ensures var d := OnConnect(db, n, now);
            Sound(d) && Onward(db, d) && Settled(db, d) && d.commands.Keys == db.commands.Keys
  {
    assert RowsKept(db, OnConnect(db, n, now));
    CommandStep(db, OnConnect(db, n, now));
  }

  lemma AckStep(db: Db, c: CommandId, ok: bool)
    requires Sound(db)
    ensures var d := AckCommand(db, c, ok);
            Sound(d) && Onward(db, d) && Settled(db, d) && d.commands.Keys == db.commands.Keys
  {
    assert RowsKept(db, AckCommand(db, c, ok));
    CommandStep(db, AckCommand(db, c, ok));
  }

  /** A step keeps the database sound, moves every workload onward, unsettles no command, and
      brings no used command id back. */
  ghost predicate Kept(s: System, t: System) {
    Sound(t.db) && Onward(s.db, t.db) && Settled(s.db, t.db) && t.db.commands.Keys <= t.spent &&
    s.spent <= t.spent && s.spent * t.db.commands.Keys <= s.db.commands.Keys
  }

  /** Every legal step keeps everything, moves every workload onward, and unsettles no command. */
  lemma StepGood(s: System, step: Step)
    requires Good(s) && Legal(s, step)
    ensures Good(Next(s, step)) && Kept(s, Next(s, step))
  {
    var t := Next(s, step);
    DbStep(s, step);
    forall r | r in t.reports ensures ReportUsable(t.db, t.reports[r]) {
      if r in s.reports { UsableOnward(s.db, t.db, s.reports[r]); }
      match step {
        case Admit(_, _, report) => Agent.ReportsStayGuarded(report);
        case _ =>
      }
    }
  }

  /** Steps on nodes, on the queue, and by the user. */
  lemma UserStep(s: System, step: Step)
    requires Good(s) && Legal(s, step)
    requires step.EnrollNode? || step.MarkNode? || step.ReportGpu? || step.Queue? || step.Place? || step.PromoteOne? ||
             step.Cancel? || step.StopOne?
    ensures Kept(s, Next(s, step))
  {
    var db := s.db;
    SameWorkloads(db, db);
    match step
    case EnrollNode(n, org, now) =>
      SetNodeSound(db, n, org, Online, Some(now));
      SameWorkloads(db, SetNode(db, n, org, Online, Some(now)));
    case MarkNode(n, status, lastSeen) =>
      SetNodeSound(db, n, db.nodes[n].org, status, lastSeen);
      SameWorkloads(db, SetNode(db, n, db.nodes[n].org, status, lastSeen));
    case ReportGpu(g, n, index, model) =>
      if AddGpu(db, g, n, index, model).Ok? { InventoryStep(db, g, n, index, model); }
    case Queue(w, org, gpuType, count, now) => QueueStep(db, w, org, gpuType, count, now);
    case Place(w, org, gpuType, count, p, c, now) => PlaceStep(db, w, org, gpuType, count, p, c, now);
    case PromoteOne(w, p, c, now) =>
      if w in db.workloads && db.workloads[w].status.Queued? { PromoteStep(db, w, p, c, now); }
    case Cancel(w, now) => if CancelQueued(db, w, now).Ok? { CancelStep(db, w, now); }
    case StopOne(w, reason, c, now) => if Stop(db, w, reason, c, now).Ok? { StopStep(db, w, reason, c, now); }
  }

  lemma ReportStep(db: Db, r: Inflight, c: CommandId, now: Time)
    requires Sound(db) && c !in db.commands && ReportUsable(db, r) && r.Loaded?
    ensures var d := ApplyReport(db, r, c, now);
            Sound(d) && Onward(db, d) && Settled(db, d) && d.commands.Keys <= db.commands.Keys + {c}
  {
    if r.state.Running? { RunningStep(db, r, c, now); } else { TerminalStep(db, r, r.state, now); }
  }

  lemma ApplyStep(s: System, step: Step)
    requires Good(s) && Legal(s, step) && step.Apply?
    ensures Kept(s, Next(s, step))
  {
    if step.r in s.reports && s.reports[step.r].Loaded? {
      var r := s.reports[step.r];
      assert ReportUsable(s.db, r);
      ReportStep(s.db, r, step.c, step.now);
    } else {
      SameWorkloads(s.db, s.db);
    }
  }

  /** Reading a report changes no table. */
  lemma ReadStep(s: System, step: Step)
    requires Good(s) && (step.Admit? || step.Load? || step.Lose?)
    ensures Kept(s, Next(s, step))
  {
    SameWorkloads(s.db, s.db);
    assert Next(s, step).db == s.db && Next(s, step).spent == s.spent;
  }

  lemma OutboxStep(s: System, step: Step)
    requires Good(s) && Legal(s, step) && (step.DeliverBatch? || step.Connect? || step.AckOne?)
    ensures Kept(s, Next(s, step))
  {
    var db := s.db;
    match step
    case DeliverBatch(n, outcomes, now) => DeliverStep(db, n, outcomes, now);
    case Connect(n, now) => ConnectStep(db, n, now);
    case AckOne(c, ok) => AckStep(db, c, ok);
  }

  lemma ReclaimStep(s: System, step: Step)
    requires Good(s) && Legal(s, step) && (step.SweepAll? || step.Remove?)
    ensures Kept(s, Next(s, step))
  {
    var db := s.db;
    match step
    case SweepAll(now) => SweepStep(db, now);
    case Remove(n, org, force, now) =>
      SameWorkloads(db, db);
      if RemoveNode(db, org, n, force, now).Ok? { RemoveStep(db, org, n, force, now); }
  }

  lemma DbStep(s: System, step: Step)
    requires Good(s) && Legal(s, step)
    ensures Kept(s, Next(s, step))
  {
    if step.Apply? { ApplyStep(s, step); }
    else if step.SweepAll? || step.Remove? { ReclaimStep(s, step); }
    else if step.DeliverBatch? || step.Connect? || step.AckOne? { OutboxStep(s, step); }
    else if step.Admit? || step.Load? || step.Lose? { ReadStep(s, step); }
    else { UserStep(s, step); }
  }

  // ----- runs

  ghost predicate CanStep(s: System, t: System) { exists step :: Legal(s, step) && Next(s, step) == t }

  ghost predicate IsRun(run: seq<System>) {
    |run| > 0 && run[0] == START && forall i | 0 <= i < |run| - 1 :: StepsAt(run, i)
  }

  ghost predicate StepsAt(run: seq<System>, i: nat)
    requires i + 1 < |run|
  {
    CanStep(run[i], run[i + 1])
  }

  lemma {:induction false} RunGood(run: seq<System>, i: nat)
    requires IsRun(run) && i < |run|
    ensures Good(run[i])
  {
    if i == 0 {
      assert forall w, g :: !Holds(EMPTY, w, g);
    } else {
      RunGood(run, i - 1);
      assert StepsAt(run, i - 1);
      var step :| Legal(run[i - 1], step) && Next(run[i - 1], step) == run[i];
      StepGood(run[i - 1], step);
    }
  }

  /** Consecutive states of a run are related by a step that keeps everything. */
  lemma RunStep(run: seq<System>, i: nat)
    requires IsRun(run) && i + 1 < |run|
    ensures Good(run[i]) && Good(run[i + 1]) && Kept(run[i], run[i + 1])
  {
    RunGood(run, i);
    assert StepsAt(run, i);
    var step :| Legal(run[i], step) && Next(run[i], step) == run[i + 1];
    StepGood(run[i], step);
  }

  lemma OneStepOnward(run: seq<System>, i: nat)
    requires IsRun(run) && i + 1 < |run|
    ensures Onward(run[i].db, run[i + 1].db)
  {
    RunStep(run, i);
  }

  /** One command row across one step: used ids stay used, and no row is born under one. */
  lemma OneStepSettled(run: seq<System>, i: nat, c: CommandId)
    requires IsRun(run) && i + 1 < |run|
    ensures c in run[i].db.commands ==> c in run[i].spent
    ensures c in run[i].spent ==> c in run[i + 1].spent
    ensures c in run[i].spent && c in run[i + 1].db.commands ==> c in run[i].db.commands
    ensures c in run[i].db.commands && c in run[i + 1].db.commands ==>
              var a, b := run[i].db.commands[c], run[i + 1].db.commands[c];
              a.workload == b.workload && (!a.status.Open() ==> b.status == a.status)
  {
    RunStep(run, i);
    assert c in run[i].spent * run[i + 1].db.commands.Keys <==> c in run[i].spent && c in run[i + 1].db.commands;
  }

  lemma {:induction false} RunOnward(run: seq<System>, i: nat, j: nat)
    requires IsRun(run) && i <= j < |run|
    ensures Onward(run[i].db, run[j].db)
    decreases j
  {
    if i == j {
      SameWorkloads(run[i].db, run[i].db);
    } else {
      RunOnward(run, i, j - 1);
      OneStepOnward(run, j - 1);
      OnwardTransitive(run[i].db, run[j - 1].db, run[j].db);
    }
  }
}
