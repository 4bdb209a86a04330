/** Each transaction of the control plane as one function on the database.  A transaction
    that rolls back returns an error and leaves no trace. */
module Transitions {
  import opened Tables
  import Outbox

  const OFFLINE_GRACE: Time := 2 * MINUTE
  const STOPPING_GRACE: Time := 2 * MINUTE

  // ----- nodes and inventory

  function SetNode(db: Db, n: NodeId, org: OrgId, status: NodeStatus, lastSeen: Option<Time>): Db {
    db.(nodes := db.nodes[n := Node(org, status, lastSeen)])
  }

  function AddGpu(db: Db, g: GpuId, n: NodeId, index: nat, model: string): Result<Db> {
    if n !in db.nodes then Err(NotFound)
    else if g in db.gpus then Err(UniqueViolation)
    else Ok(db.(gpus := db.gpus[g := Gpu(db.nodes[n].org, n, index, model, Idle)]))
  }

  // ----- placement, launch and promotion

  /** A claimed set of GPUs on one node. */
  datatype Placement = Placement(node: NodeId, gpus: set<GpuId>)

  function OpenAttachments(w: WorkloadId, gs: set<GpuId>): (a: Attachments)
    ensures forall k :: k in a <==> k.0 == w && k.1 in gs
    ensures forall k | k in a :: a[k] == None
  {
    map g | g in gs :: (w, g) := None
  }

  /** Inserts the workload_gpus rows and flips the GPUs, with the guards the schema and the
      row count give: one open attachment per GPU, and every claimed GPU still idle. */
  function Attach(db: Db, w: WorkloadId, gs: set<GpuId>): Result<Db> {
    if exists g | g in gs :: (w, g) in db.attachments || (exists v | v in db.workloads :: Holds(db, v, g)) then
      Err(UniqueViolation)
    else if exists g | g in gs :: g !in db.gpus || db.gpus[g].status != Idle then
      Err(ClaimRaced)
    else
      Ok(db.(attachments := db.attachments + OpenAttachments(w, gs),
             gpus := map g | g in db.gpus :: if g in gs then db.gpus[g].(status := InUse) else db.gpus[g]))
  }

  function NewWorkload(org: OrgId, gpuType: string, count: nat, status: WorkloadStatus, node: Option<NodeId>,
                       now: Time, queuedAt: Option<Time>): Workload {
    Workload(org, gpuType, count, status, node, now, queuedAt, None, None, None, None)
  }

  function NewCommand(n: NodeId, w: WorkloadId, kind: CommandKind, now: Time): Command {
    Command(n, w, kind, Unsent, 0, now,
            if kind.LaunchCmd? then Some(now + Outbox.LAUNCH_DEADLINE) else None, now)
  }

  function Enqueue(db: Db, c: CommandId, n: NodeId, w: WorkloadId, kind: CommandKind, now: Time): Db {
    db.(commands := db.commands[c := NewCommand(n, w, kind, now)])
  }

  function LaunchQueued(db: Db, w: WorkloadId, org: OrgId, gpuType: string, count: nat, now: Time): Db {
    db.(workloads := db.workloads[w := NewWorkload(org, gpuType, count, Queued, None, now, Some(now))])
  }

  function LaunchPlaced(db: Db, w: WorkloadId, org: OrgId, gpuType: string, count: nat, p: Placement,
                        c: CommandId, now: Time): Result<Db> {
    var db1 := db.(workloads := db.workloads[w := NewWorkload(org, gpuType, count, Pending, Some(p.node), now, None)]);
    var db2 :- Attach(db1, w, p.gpus);
    Ok(Enqueue(db2, c, p.node, w, LaunchCmd, now))
  }

  function Promote(db: Db, w: WorkloadId, p: Placement, c: CommandId, now: Time): Result<Db> {
    if w !in db.workloads || db.workloads[w].status != Queued then Err(NotQueued)
    else
      var db1 := db.(workloads := db.workloads[w := db.workloads[w].(status := Pending, node := Some(p.node))]);
      var db2 :- Attach(db1, w, p.gpus);
      Ok(Enqueue(db2, c, p.node, w, LaunchCmd, now))
  }

  function CancelQueued(db: Db, w: WorkloadId, now: Time): Result<Db> {
    if w !in db.workloads || db.workloads[w].status != Queued then Err(NotQueued)
    else Ok(db.(workloads := db.workloads[w := db.workloads[w].(status := Stopped, stoppedAt := Some(now),
                                                                stopReason := Some(ByUser))]))
  }

  // ----- stop

  function Stop(db: Db, w: WorkloadId, reason: StopReason, c: CommandId, now: Time): Result<Db> {
    if w !in db.workloads || !(db.workloads[w].status.Pending? || db.workloads[w].status.Running?) then Err(NotFound)
    else
      var row := db.workloads[w];
      var db1 := db.(workloads := db.workloads[w := row.(status := Stopping, stopReason := Some(reason),
                                                         stoppingAt := Some(now))]);
      Ok(if row.node.Some? then Enqueue(db1, c, row.node.value, w, StopCmd, now) else db1)
  }

  // ----- agent reports

  /** requireWorkloadOnNode. */
  predicate OnNode(db: Db, n: NodeId, w: WorkloadId) {
    w in db.workloads && db.workloads[w].node == Some(n)
  }

  predicate AcceptsRunning(db: Db, w: WorkloadId) {
    w in db.workloads && (db.workloads[w].status.Pending? || db.workloads[w].status.Running?)
  }

  /** A running report: it lands on pending and running rows only; when an earlier read showed
      the row terminal, the leaked container is told to stop. */
  function ReportRunning(db: Db, n: NodeId, w: WorkloadId, seen: WorkloadStatus, c: CommandId, now: Time): Db {
    if AcceptsRunning(db, w) then
      var row := db.workloads[w];
      db.(workloads := db.workloads[w := row.(status := Running, startedAt := Some(row.startedAt.GetOr(now)))])
    else if seen.Terminal() && n in db.nodes then Enqueue(db, c, n, w, StopCmd, now)
    else db
  }

  /** Frees the GPUs an earlier read found attached to w, whatever holds them by now. */
  function Detach(db: Db, ws: set<WorkloadId>, now: Time): Db {
    db.(attachments := map k | k in db.attachments ::
                         if k.0 in ws && db.attachments[k].None? then Some(now) else db.attachments[k])
  }

  function FreeGpus(db: Db, gs: set<GpuId>): Db {
    db.(gpus := map g | g in db.gpus :: if g in gs then db.gpus[g].(status := Idle) else db.gpus[g])
  }

  function ReportTerminal(db: Db, w: WorkloadId, state: WorkloadStatus, seen: set<GpuId>, now: Time): Db {
    if w !in db.workloads || db.workloads[w].status.Terminal() then db
    else
      var db1 := db.(workloads := db.workloads[w := db.workloads[w].(status := state, stoppedAt := Some(now))]);
      FreeGpus(Detach(db1, {w}, now), seen)
  }

  /** The default branch of UpdateStatus: no guard at all. */
  function ReportOther(db: Db, w: WorkloadId, state: WorkloadStatus): Db {
    if w !in db.workloads then db
    else db.(workloads := db.workloads[w := db.workloads[w].(status := state)])
  }

  // ----- the sweep, in one piece

  predicate NodeGone(db: Db, n: NodeId, now: Time) {
    n in db.nodes && db.nodes[n].status.Offline? &&
    (db.nodes[n].lastSeen.None? || db.nodes[n].lastSeen.value < now - OFFLINE_GRACE)
  }

  predicate Stuck(db: Db, w: WorkloadId, now: Time) {
    w in db.workloads &&
    var row := db.workloads[w];
    row.node.Some? && row.node.value in db.nodes &&
    ((row.status.Active() && NodeGone(db, row.node.value, now)) ||
     (row.status.Stopping? && row.stoppingAt.GetOr(row.createdAt) < now - STOPPING_GRACE))
  }

  predicate Overdue(c: Command, now: Time) {
    c.status.Open() && c.deliverBy.Some? && c.deliverBy.value < now
  }

  predicate Undelivered(db: Db, w: WorkloadId, now: Time) {
    w in db.workloads && db.workloads[w].status.Pending? &&
    exists c | c in db.commands ::
      db.commands[c].workload == w && db.commands[c].kind.LaunchCmd? && Overdue(db.commands[c], now)
  }

  /** The workloads a sweep fails: stuck ones, and pending ones whose launch is overdue. */
  function Reclaimed(db: Db, now: Time): set<WorkloadId> {
    set w | w in db.workloads && (Stuck(db, w, now) || Undelivered(db, w, now))
  }

  function FailRow(row: Workload, reason: StopReason, now: Time): Workload {
    row.(status := Failed, stoppedAt := Some(now), stopReason := Some(row.stopReason.GetOr(reason)))
  }

  function FailAll(db: Db, ws: set<WorkloadId>, reason: StopReason, now: Time): Db {
    db.(workloads := map w | w in db.workloads ::
                       if w in ws then FailRow(db.workloads[w], reason, now) else db.workloads[w])
  }

  function FreeUnheld(db: Db): Db {
    db.(gpus := map g | g in db.gpus ::
                  if db.gpus[g].status.InUse? && !HeldByActive(db, g) then db.gpus[g].(status := Idle) else db.gpus[g])
  }

  function CloseCommands(db: Db, now: Time): Db {
    db.(commands := map c | c in db.commands ::
                      var row := db.commands[c];
                      if Overdue(row, now) then row.(status := Expired)
                      else if row.status.Open() && TerminalIn(db, row.workload) then row.(status := Superseded)
                      else row)
  }

  /** One sweep: fail what is stuck or undelivered, detach it, close its commands, free its GPUs. */
  function Sweep(db: Db, now: Time): Db {
    var ws := Reclaimed(db, now);
    FreeUnheld(CloseCommands(Detach(FailAll(db, ws, Failure, now), ws, now), now))
  }

  // ----- node removal

  function ActiveOn(db: Db, n: NodeId): set<WorkloadId> {
    set w | w in db.workloads && db.workloads[w].node == Some(n) && db.workloads[w].status.Active()
  }

  /** The node row goes; GPUs, attachments and commands go with it, workloads keep their history. */
  function DeleteNode(db: Db, n: NodeId): Db {
    Db(db.nodes - {n},
       map g | g in db.gpus && db.gpus[g].node != n :: db.gpus[g],
       map w | w in db.workloads ::
         if db.workloads[w].node == Some(n) then db.workloads[w].(node := None) else db.workloads[w],
       map k | k in db.attachments && !(k.1 in db.gpus && db.gpus[k.1].node == n) :: db.attachments[k],
       map c | c in db.commands && db.commands[c].node != n :: db.commands[c])
  }

  function RemoveNode(db: Db, org: OrgId, n: NodeId, force: bool, now: Time): Result<Db> {
    if n !in db.nodes || db.nodes[n].org != org then Err(NotFound)
    else
      var busy := ActiveOn(db, n);
      if busy != {} && !force then Err(NodeBusy)
      else Ok(DeleteNode(FailAll(db, busy, ByAdmin, now), n))
  }

  // ----- delivery

  type Commands = map<CommandId, Command>
  type Outcomes = map<CommandId, Outbox.Outcome>

  function DueIn(commands: Commands, n: NodeId, now: Time): set<CommandId> {
    set c | c in commands && Outbox.Due(commands[c], n, now)
  }

  function DueFor(db: Db, n: NodeId, now: Time): set<CommandId> { DueIn(db.commands, n, now) }

  /** One delivery transaction over the claimed rows; `attempts` is what the claim read. */
  function DeliverRows(commands: Commands, outcomes: Outcomes, attempts: map<CommandId, nat>, now: Time): Commands
    requires outcomes.Keys <= attempts.Keys
  {
    map c | c in commands ::
      if c in outcomes then Outbox.AfterSend(commands[c], attempts[c], outcomes[c], now) else commands[c]
  }

  function Deliver(db: Db, outcomes: Outcomes, attempts: map<CommandId, nat>, now: Time): Db
    requires outcomes.Keys <= attempts.Keys
  {
    db.(commands := DeliverRows(db.commands, outcomes, attempts, now))
  }

  function AttemptsIn(commands: Commands, cs: set<CommandId>): map<CommandId, nat>
    requires cs <= commands.Keys
  {
    map c | c in cs :: commands[c].attempts
  }

  function AttemptsOf(db: Db, cs: set<CommandId>): map<CommandId, nat>
    requires cs <= db.commands.Keys
  {
    AttemptsIn(db.commands, cs)
  }

  function ReconnectRows(commands: Commands, n: NodeId, now: Time): Commands {
    map c | c in commands :: Outbox.Reconnect(commands[c], n, now)
  }

  function OnConnect(db: Db, n: NodeId, now: Time): Db { db.(commands := ReconnectRows(db.commands, n, now)) }

  function AckRow(commands: Commands, c: CommandId, ok: bool): Commands {
    if c in commands then commands[c := Outbox.Ack(commands[c], ok)] else commands
  }

  function AckCommand(db: Db, c: CommandId, ok: bool): Db { db.(commands := AckRow(db.commands, c, ok)) }
}
