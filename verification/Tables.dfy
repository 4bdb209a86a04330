/** The control plane's database: one row type per table, and what it means for a workload
    to hold a GPU.  Ids are fresh and distinct, times are integers on one clock. */
module Tables {
  type Time = int  // microseconds
  const SECOND: Time := 1_000_000
  const MINUTE: Time := 60 * SECOND

  type OrgId = nat
  type NodeId = nat
  type GpuId = nat
  type WorkloadId = nat
  type CommandId = nat

  datatype Option<+T> = None | Some(value: T) {
    function GetOr(default: T): T { if Some? then value else default }
  }

  datatype Result<+T> = Ok(value: T) | Err(error: Error) {
    predicate IsFailure() { Err? }
    function PropagateFailure<U>(): Result<U> requires Err? { Err(error) }
    function Extract(): T requires Ok? { value }
  }

  datatype Error =
    | InvalidRequest
    | InsufficientCredit
    | NotFound
    | NotQueued
    | NodeBusy
    | ClaimRaced
    | UniqueViolation

  datatype WorkloadStatus = Queued | Pending | Running | Stopping | Stopped | Failed {
    predicate Active() { Pending? || Running? || Stopping? }

    predicate Terminal() { Stopped? || Failed? }

    function Rank(): nat {
      match this
      case Queued => 0
      case Pending => 1
      case Running => 2
      case Stopping => 3
      case Stopped => 4
      case Failed => 4
    }
  }

  datatype StopReason = ByUser | ByAdmin | IdleReclaim | Failure

  datatype NodeStatus = Online | Offline | Degraded
  datatype Node = Node(org: OrgId, status: NodeStatus, lastSeen: Option<Time>)

  datatype GpuStatus = Idle | InUse
  datatype Gpu = Gpu(org: OrgId, node: NodeId, index: nat, model: string, status: GpuStatus)

  datatype Workload = Workload(
    org: OrgId,
    gpuType: string,
    count: nat,
    status: WorkloadStatus,
    node: Option<NodeId>,
    createdAt: Time,
    queuedAt: Option<Time>,
    startedAt: Option<Time>,
    stoppingAt: Option<Time>,
    stoppedAt: Option<Time>,
    stopReason: Option<StopReason>)

  datatype CommandKind = LaunchCmd | StopCmd
  datatype CommandStatus = Unsent | Sent | Acked | Rejected | Expired | Superseded {
    predicate Open() { Unsent? || Sent? }
  }
  datatype Command = Command(
    node: NodeId,
    workload: WorkloadId,
    kind: CommandKind,
    status: CommandStatus,
    attempts: nat,
    nextAttempt: Time,
    deliverBy: Option<Time>,
    createdAt: Time)

  /** workload_gpus: keyed by its unique (workload, gpu) pair; the value is detached_at. */
  type Attachments = map<(WorkloadId, GpuId), Option<Time>>

  datatype Db = Db(
    nodes: map<NodeId, Node>,
    gpus: map<GpuId, Gpu>,
    workloads: map<WorkloadId, Workload>,
    attachments: Attachments,
    commands: map<CommandId, Command>)

  const EMPTY := Db(map[], map[], map[], map[], map[])

  /** An attachment that has not been detached. */
  predicate Holds(db: Db, w: WorkloadId, g: GpuId) {
    (w, g) in db.attachments && db.attachments[(w, g)].None?
  }

  function HeldBy(db: Db, w: WorkloadId): set<GpuId> {
    set g | g in db.gpus && Holds(db, w, g)
  }

  predicate ActiveIn(db: Db, w: WorkloadId) { w in db.workloads && db.workloads[w].status.Active() }

  predicate TerminalIn(db: Db, w: WorkloadId) { w in db.workloads && db.workloads[w].status.Terminal() }

  /** The subquery of the sweep: some active workload has an open attachment on g. */
  predicate HeldByActive(db: Db, g: GpuId) {
    exists w | w in db.workloads :: Holds(db, w, g) && db.workloads[w].status.Active()
  }
}
