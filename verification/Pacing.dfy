/** How often a launch is sent, over whole histories of the control plane: its row is paced by the
    resend waits whatever else happens to the system. */
module Pacing {
  import opened Tables
  import opened Transitions
  import opened Books
  import opened Runs
  import opened Settlement
  import Metering
  import Outbox

  // ----- timely histories with their acts

  /** A timely history together with what was done at each step. */
  ghost predicate IsTimed(run: seq<Whole>, acts: seq<Act>) {
    |run| == |acts| + 1 && run[0].sys == START && run[0].acc == Metering.NO_ACCOUNTS &&
    forall i | 0 <= i < |acts| :: DidAt(run, acts, i)
  }

  ghost predicate DidAt(run: seq<Whole>, acts: seq<Act>, i: nat)
    requires i < |acts| && i + 1 < |run|
  {
    Allowed(run[i], acts[i]) && OnTime(run[i], acts[i]) && After(run[i], acts[i]) == run[i + 1]
  }

  lemma {:induction false} TimedFine(run: seq<Whole>, acts: seq<Act>, i: nat)
    requires IsTimed(run, acts) && i < |run|
    ensures Fine(run[i])
    decreases i
  {
    if i == 0 {
      StartFine(run[0]);
    } else {
      TimedFine(run, acts, i - 1);
      assert DidAt(run, acts, i - 1);
      ActFine(run[i - 1], acts[i - 1]);
    }
  }

  /** The act hands command c over, whatever becomes of it. */
  predicate Sends(act: Act, c: CommandId) { act.Control? && act.step.DeliverBatch? && c in act.step.outcomes }

  /** The act is a reconnect of the node that command c is for. */
  predicate Reconnects(s: Whole, act: Act, c: CommandId) {
    act.Control? && act.step.Connect? && c in s.sys.db.commands && s.sys.db.commands[c].node == act.step.n
  }

  function SentBy(act: Act, c: CommandId): nat { if Sends(act, c) then 1 else 0 }

  function AgainBy(s: Whole, act: Act, c: CommandId): nat { if Reconnects(s, act, c) then 1 else 0 }

  function Sendings(acts: seq<Act>, i: nat, c: CommandId): nat
    requires i <= |acts|
  {
    if i == 0 then 0 else Sendings(acts, i - 1, c) + SentBy(acts[i - 1], c)
  }

  function Reconnections(run: seq<Whole>, acts: seq<Act>, i: nat, c: CommandId): nat
    requires i <= |acts| && i <= |run|
  {
    if i == 0 then 0 else Reconnections(run, acts, i - 1, c) + AgainBy(run[i - 1], acts[i - 1], c)
  }

  // ----- one row across one step

  /** The row is only closed, or left alone. */
  predicate OnlyCloses(a: Command, b: Command) {
    b == a.(status := b.status) && (b.status.Open() ==> a.status.Open())
  }

  ghost predicate RowsOnlyClose(a: Db, b: Db, c: CommandId) {
    c in a.commands && c in b.commands ==> OnlyCloses(a.commands[c], b.commands[c])
  }

  /** A row that was not there is a new, unsent command of this very moment. */
  ghost predicate RowIsNew(a: Db, b: Db, c: CommandId, at: Option<Time>) {
    c in b.commands && c !in a.commands ==>
      at.Some? && exists n, w, kind :: b.commands[c] == NewCommand(n, w, kind, at.value)
  }

  lemma EnqueueRows(db: Db, c: CommandId, n: NodeId, w: WorkloadId, kind: CommandKind, now: Time, d: CommandId)
    requires c !in db.commands
    ensures RowsOnlyClose(db, Enqueue(db, c, n, w, kind, now), d)
    ensures RowIsNew(db, Enqueue(db, c, n, w, kind, now), d, Some(now))
  {
    if d == c { assert Enqueue(db, c, n, w, kind, now).commands[d] == NewCommand(n, w, kind, now); }
  }

  lemma PlacingRows(s: System, step: Step, d: CommandId)
    requires Good(s) && Legal(s, step) && (step.Place? || step.PromoteOne?)
    ensures RowsOnlyClose(s.db, Next(s, step).db, d) && RowIsNew(s.db, Next(s, step).db, d, TimeOf(step))
  {
    match step
    case Place(w, org, gpuType, count, p, c, now) =>
      if LaunchPlaced(s.db, w, org, gpuType, count, p, c, now).Ok? {
        var row := NewWorkload(org, gpuType, count, Pending, Some(p.node), now, None);
        var at := Attach(s.db.(workloads := s.db.workloads[w := row]), w, p.gpus).value;
        EnqueueRows(at, c, p.node, w, LaunchCmd, now, d);
      }
    case PromoteOne(w, p, c, now) =>
      if Promote(s.db, w, p, c, now).Ok? {
        var row := s.db.workloads[w].(status := Pending, node := Some(p.node));
        var at := Attach(s.db.(workloads := s.db.workloads[w := row]), w, p.gpus).value;
        EnqueueRows(at, c, p.node, w, LaunchCmd, now, d);
      }
  }

  lemma StopRows(s: System, step: Step, d: CommandId)
    requires Good(s) && Legal(s, step) && step.StopOne?
    ensures RowsOnlyClose(s.db, Next(s, step).db, d) && RowIsNew(s.db, Next(s, step).db, d, TimeOf(step))
  {
    var db := s.db;
    if Stop(db, step.w, step.reason, step.c, step.now).Ok? {
      var row := db.workloads[step.w];
      if row.node.Some? {
        EnqueueRows(db.(workloads := db.workloads[step.w := row.(status := Stopping, stopReason := Some(step.reason),
                                                                 stoppingAt := Some(step.now))]),
                    step.c, row.node.value, step.w, StopCmd, step.now, d);
      }
    }
  }

  lemma ReportRows(db: Db, r: Inflight, c: CommandId, now: Time, d: CommandId)
    requires r.Loaded? && c !in db.commands
    ensures RowsOnlyClose(db, ApplyReport(db, r, c, now), d) && RowIsNew(db, ApplyReport(db, r, c, now), d, Some(now))
  {
    if r.state.Running? && !AcceptsRunning(db, r.workload) && r.seen.Terminal() && r.node in db.nodes {
      EnqueueRows(db, c, r.node, r.workload, StopCmd, now, d);
    }
  }

  lemma SweepRows(db: Db, now: Time, d: CommandId)
    ensures RowsOnlyClose(db, Sweep(db, now), d) && Sweep(db, now).commands.Keys == db.commands.Keys
  {
  }

  lemma RemoveRows(db: Db, org: OrgId, n: NodeId, force: bool, now: Time, d: CommandId)
    requires RemoveNode(db, org, n, force, now).Ok?
    ensures RowsOnlyClose(db, RemoveNode(db, org, n, force, now).value, d)
    ensures d in RemoveNode(db, org, n, force, now).value.commands ==> d in db.commands
  {
  }

  lemma QuietRows(s: System, step: Step, d: CommandId)
    requires step.EnrollNode? || step.MarkNode? || step.ReportGpu? || step.Queue? || step.Cancel? || step.Admit? ||
             step.Load? || step.Lose? || step.AckOne?
    ensures RowsOnlyClose(s.db, Next(s, step).db, d) && Next(s, step).db.commands.Keys == s.db.commands.Keys
  {
  }

  /** Apart from sending and reconnecting, steps only close rows and add new ones. */
  lemma StepRows(s: System, step: Step, d: CommandId)
    requires Good(s) && Legal(s, step) && !step.DeliverBatch? && !step.Connect?
    ensures RowsOnlyClose(s.db, Next(s, step).db, d) && RowIsNew(s.db, Next(s, step).db, d, TimeOf(step))
  {
    if step.Place? || step.PromoteOne? { PlacingRows(s, step, d); }
    else if step.StopOne? { StopRows(s, step, d); }
    else if step.Apply? {
      if step.r in s.reports && s.reports[step.r].Loaded? { ReportRows(s.db, s.reports[step.r], step.c, step.now, d); }
    } else if step.SweepAll? {
      SweepRows(s.db, step.now, d);
    } else if step.Remove? {
      if RemoveNode(s.db, step.org, step.n, step.force, step.now).Ok? {
        RemoveRows(s.db, step.org, step.n, step.force, step.now, d);
      }
    } else {
      QuietRows(s, step, d);
    }
  }

  // ----- the pace of one row

  /** After n sendings and r reconnects: the clock has moved on by the waits in between, and an open
      row is not due before the next wait is over. */
  predicate Paced(row: Command, clock: Time, n: nat, r: nat) {
    && clock >= row.createdAt + Outbox.Spread(n - 1 - r)
    && (row.status.Open() ==> row.attempts == n && row.nextAttempt >= row.createdAt + Outbox.Spread(n - r))
  }

  lemma NewPaced(n: NodeId, w: WorkloadId, kind: CommandKind, now: Time)
    ensures Paced(NewCommand(n, w, kind, now), now, 0, 0)
  {
  }

  lemma SentPaced(row: Command, clock: Time, n: nat, r: nat, outcome: Outbox.Outcome, now: Time)
    requires Paced(row, clock, n, r) && row.status.Open() && row.nextAttempt <= now
    ensures Paced(Outbox.AfterSend(row, row.attempts, outcome, now), now, n + 1, r)
  {
    if n >= r { Outbox.BackoffGrows(n - r, n); }
  }

  lemma ReconnectedPaced(row: Command, clock: Time, n: nat, r: nat, node: NodeId, now: Time)
    requires Paced(row, clock, n, r) && row.node == node && now >= clock
    ensures Paced(Outbox.Reconnect(row, node, now), now, n, r + 1)
  {
    Outbox.SpreadGrows(n - 2 - r, n - 1 - r);
  }

  /** A row that is there is paced; an id never used was never sent. */
  predicate PacedIn(s: System, clock: Time, c: CommandId, n: nat, r: nat) {
    if c in s.db.commands then Paced(s.db.commands[c], clock, n, r) else c !in s.spent ==> n == 0 && r == 0
  }

  /** The act keeps the pace, with its own sending and reconnect counted. */
  ghost predicate KeepsPace(s: Whole, act: Act, c: CommandId, n: nat, r: nat)
    requires Allowed(s, act)
  {
    PacedIn(After(s, act).sys, After(s, act).clock, c, n + SentBy(act, c), r + AgainBy(s, act, c))
  }

  lemma SendRow(s: System, step: Step, c: CommandId)
    requires step.DeliverBatch? && Legal(s, step)
    ensures Next(s, step).db.commands.Keys == s.db.commands.Keys && Next(s, step).spent == s.spent
    ensures c in s.db.commands ==>
              var row, after := s.db.commands[c], Next(s, step).db.commands[c];
              if c in step.outcomes then
                row.status.Open() && row.nextAttempt <= step.now &&
                after == Outbox.AfterSend(row, row.attempts, step.outcomes[c], step.now)
              else after == row
    ensures c in step.outcomes ==> c in s.db.commands
  {
    if c in step.outcomes { assert c in DueFor(s.db, step.n, step.now); }
  }

  lemma DeliverPaced(s: Whole, act: Act, c: CommandId, n: nat, r: nat)
    requires Allowed(s, act) && OnTime(s, act) && act.Control? && act.step.DeliverBatch? &&
             PacedIn(s.sys, s.clock, c, n, r)
    ensures KeepsPace(s, act, c, n, r)
  {
    SendRow(s.sys, act.step, c);
    if Sends(act, c) { SentPaced(s.sys.db.commands[c], s.clock, n, r, act.step.outcomes[c], act.step.now); }
  }

  lemma ReconnectRow(s: System, step: Step, c: CommandId)
    requires step.Connect?
    ensures Next(s, step).db.commands.Keys == s.db.commands.Keys && Next(s, step).spent == s.spent
    ensures c in s.db.commands ==> Next(s, step).db.commands[c] == Outbox.Reconnect(s.db.commands[c], step.n, step.now)
  {
  }

  lemma ConnectPaced(s: Whole, act: Act, c: CommandId, n: nat, r: nat)
    requires Allowed(s, act) && OnTime(s, act) && act.Control? && act.step.Connect? && PacedIn(s.sys, s.clock, c, n, r)
    ensures KeepsPace(s, act, c, n, r)
  {
    ReconnectRow(s.sys, act.step, c);
    if Reconnects(s, act, c) { ReconnectedPaced(s.sys.db.commands[c], s.clock, n, r, act.step.n, act.step.now); }
  }

  /** A row that is only closed, or is new, keeps its pace as the clock moves on to now. */
  lemma RowsPaced(a: System, b: System, clock: Time, now: Time, at: Option<Time>, c: CommandId, n: nat, r: nat)
    requires PacedIn(a, clock, c, n, r) && clock <= now && (at.Some? ==> at.value == now)
    requires RowsOnlyClose(a.db, b.db, c) && RowIsNew(a.db, b.db, c, at)
    requires c in b.db.commands && c !in a.db.commands ==> c !in a.spent
    requires c in a.db.commands && c !in b.db.commands ==> c in b.spent
    requires c in a.spent ==> c in b.spent
    ensures PacedIn(b, now, c, n, r)
  {
    if c in b.db.commands && c !in a.db.commands {
      var node, w, kind :| b.db.commands[c] == NewCommand(node, w, kind, at.value);
      NewPaced(node, w, kind, now);
    }
  }

  lemma IdsSpent(s: System, step: Step, c: CommandId)
    requires Good(s) && Legal(s, step)
    ensures var t := Next(s, step);
            && (c in t.db.commands && c !in s.db.commands ==> c !in s.spent)
            && (c in s.db.commands && c !in t.db.commands ==> c in t.spent)
            && (c in s.spent ==> c in t.spent)
  {
    DbStep(s, step);
    assert c in s.spent * Next(s, step).db.commands.Keys <==> c in s.spent && c in Next(s, step).db.commands;
  }

  lemma OtherPaced(s: Whole, act: Act, c: CommandId, n: nat, r: nat)
    requires Good(s.sys) && Allowed(s, act) && OnTime(s, act) && PacedIn(s.sys, s.clock, c, n, r)
    requires act.Control? && !act.step.DeliverBatch? && !act.step.Connect?
    ensures KeepsPace(s, act, c, n, r)
  {
    StepRows(s.sys, act.step, c);
    IdsSpent(s.sys, act.step, c);
    RowsPaced(s.sys, Next(s.sys, act.step), s.clock, TimeOf(act.step).GetOr(s.clock), TimeOf(act.step), c, n, r);
  }

  lemma ActPaced(s: Whole, act: Act, c: CommandId, n: nat, r: nat)
    requires Good(s.sys) && Allowed(s, act) && OnTime(s, act) && PacedIn(s.sys, s.clock, c, n, r)
    ensures KeepsPace(s, act, c, n, r)
  {
    if !act.Control? { assert After(s, act).sys == s.sys && After(s, act).clock >= s.clock; }
    else if act.step.DeliverBatch? { DeliverPaced(s, act, c, n, r); }
    else if act.step.Connect? { ConnectPaced(s, act, c, n, r); }
    else { OtherPaced(s, act, c, n, r); }
  }

  lemma {:induction false} RunPaced(run: seq<Whole>, acts: seq<Act>, i: nat, c: CommandId)
    requires IsTimed(run, acts) && i < |run|
    ensures PacedIn(run[i].sys, run[i].clock, c, Sendings(acts, i, c), Reconnections(run, acts, i, c))
    decreases i
  {
    if i > 0 {
      RunPaced(run, acts, i - 1, c);
      TimedFine(run, acts, i - 1);
      assert DidAt(run, acts, i - 1);
      ActPaced(run[i - 1], acts[i - 1], c, Sendings(acts, i - 1, c), Reconnections(run, acts, i - 1, c));
    }
  }

  /** Over every timely history, whatever stops, sweeps, reports, acknowledgements and removals come
      in between: as long as a launch's deadline has not passed, it has been sent at most 6 + r times,
      where r is how often its node reconnected while it was there. */
  lemma LaunchSentAtMost(run: seq<Whole>, acts: seq<Act>, i: nat, c: CommandId)
    requires IsTimed(run, acts) && i < |run| && c in run[i].sys.db.commands
    requires run[i].clock <= run[i].sys.db.commands[c].createdAt + Outbox.LAUNCH_DEADLINE
    ensures Sendings(acts, i, c) <= 6 + Reconnections(run, acts, i, c)
  {
    RunPaced(run, acts, i, c);
    Outbox.SixthBackoffMissesDeadline(Sendings(acts, i, c) - 1 - Reconnections(run, acts, i, c));
  }
}
