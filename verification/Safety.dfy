/** What holds in every reachable state of the control plane, and between any two states of a
    run, in plain terms. */
module Safety {
  import opened Tables
  import opened Transitions
  import opened Books
  import opened Runs
  import Outbox
  import Agent

  // ----- GPUs

  ghost function HoldersOf(db: Db, g: GpuId): set<WorkloadId> {
    set w | w in db.workloads && Holds(db, w, g)
  }

  lemma SingleHolder(db: Db, g: GpuId, w: WorkloadId)
    requires Sound(db) && Holds(db, w, g)
    ensures HoldersOf(db, g) == {w}
  {
    assert (w, g) in db.attachments;
  }

  /** The GPU book: a GPU is in_use exactly when it has one open attachment, and none otherwise;
      that attachment belongs to a pending, running or stopping workload of the same node. */
  lemma GpuBook(run: seq<System>, i: nat, g: GpuId)
    requires IsRun(run) && i < |run| && g in run[i].db.gpus
    ensures var db := run[i].db;
            if db.gpus[g].status.InUse? then
              exists w :: HoldersOf(db, g) == {w} && ActiveIn(db, w) && db.workloads[w].node == Some(db.gpus[g].node)
            else HoldersOf(db, g) == {}
  {
    RunGood(run, i);
    var db := run[i].db;
    if db.gpus[g].status.InUse? {
      var w :| Holds(db, w, g);
      SingleHolder(db, g, w);
    } else {
      assert forall w :: !Holds(db, w, g);
    }
  }

  /** The other side: an active workload holds exactly the number of GPUs it asked for, all on
      its own node; queued, stopped and failed workloads hold none. */
  lemma WorkloadBook(run: seq<System>, i: nat, w: WorkloadId)
    requires IsRun(run) && i < |run| && w in run[i].db.workloads
    ensures var db, row := run[i].db, run[i].db.workloads[w];
            if row.status.Active() then
              |HeldBy(db, w)| == row.count && forall g | g in HeldBy(db, w) :: row.node == Some(db.gpus[g].node)
            else HeldBy(db, w) == {}
  {
    RunGood(run, i);
    var db := run[i].db;
    if !db.workloads[w].status.Active() { assert forall g :: !Holds(db, w, g); }
  }

  // ----- the outbox

  ghost function LaunchRows(db: Db, w: WorkloadId): set<CommandId> {
    set c | c in db.commands && db.commands[c].workload == w && db.commands[c].kind.LaunchCmd?
  }

  /** A pending workload has exactly one launch row, on its own node, neither expired nor superseded. */
  lemma PendingHasItsLaunch(run: seq<System>, i: nat, w: WorkloadId)
    requires IsRun(run) && i < |run| && w in run[i].db.workloads && run[i].db.workloads[w].status.Pending?
    ensures var db := run[i].db;
            exists c :: LaunchRows(db, w) == {c} && db.workloads[w].node == Some(db.commands[c].node) &&
                        !db.commands[c].status.Expired? && !db.commands[c].status.Superseded?
  {
    RunGood(run, i);
    var db := run[i].db;
    assert ActiveIn(db, w);
    var c: CommandId :| IsCommand(db, c, w, LaunchCmd) && Standing(db, c, db.workloads[w].node.value);
    forall d | d in LaunchRows(db, w) ensures d == c { assert IsCommand(db, d, w, LaunchCmd); }
    assert LaunchRows(db, w) == {c};
  }

  /** A stopping workload has a stop row on its own node, neither expired nor superseded. */
  lemma StoppingHasItsStop(run: seq<System>, i: nat, w: WorkloadId)
    requires IsRun(run) && i < |run| && w in run[i].db.workloads && run[i].db.workloads[w].status.Stopping?
    ensures var db := run[i].db;
            exists c :: c in db.commands && db.commands[c].workload == w && db.commands[c].kind.StopCmd? &&
                        db.workloads[w].node == Some(db.commands[c].node) &&
                        !db.commands[c].status.Expired? && !db.commands[c].status.Superseded?
  {
    RunGood(run, i);
    var db := run[i].db;
    assert ActiveIn(db, w);
    var c: CommandId :| IsCommand(db, c, w, StopCmd) && Standing(db, c, db.workloads[w].node.value);
  }

  /** A superseded row's workload is terminal; an expired row is a launch that came too late
      for a workload which is not pending any more. */
  lemma ClosedRowsAreMoot(run: seq<System>, i: nat, c: CommandId)
    requires IsRun(run) && i < |run| && c in run[i].db.commands
    ensures var db, row := run[i].db, run[i].db.commands[c];
            row.workload in db.workloads &&
            (row.status.Superseded? ==> db.workloads[row.workload].status.Terminal()) &&
            (row.status.Expired? ==> row.kind.LaunchCmd? && !db.workloads[row.workload].status.Pending?)
  {
    RunGood(run, i);
    assert RowSound(run[i].db, c);
  }

  /** Acked, failed, expired and superseded rows never change status again, for as long as they
      exist, and no other command ever takes their id. */
  lemma {:induction false} SettledForGood(run: seq<System>, i: nat, j: nat, c: CommandId)
    requires IsRun(run) && i <= j < |run|
    requires c in run[i].db.commands && c in run[j].db.commands
    ensures run[i].db.commands[c].workload == run[j].db.commands[c].workload
    ensures !run[i].db.commands[c].status.Open() ==> run[j].db.commands[c].status == run[i].db.commands[c].status
    decreases j
  {
    if i < j {
      SpentGrows(run, i, j - 1, c);
      OneStepSettled(run, j - 1, c);
      SettledForGood(run, i, j - 1, c);
    }
  }

  lemma {:induction false} SpentGrows(run: seq<System>, i: nat, j: nat, c: CommandId)
    requires IsRun(run) && i <= j < |run| && c in run[i].db.commands
    ensures c in run[j].spent
    decreases j
  {
    if i < j {
      SpentGrows(run, i, j - 1, c);
      OneStepSettled(run, j - 1, c);
    } else {
      RunGood(run, i);
    }
  }

  // ----- lifecycles

  /** No resurrection: whatever reports arrive, late, twice or out of order, a workload only
      moves up queued < pending < running < stopping < terminal, a terminal status is final,
      and started_at and stopped_at are written at most once. */
  lemma NoResurrection(run: seq<System>, i: nat, j: nat, w: WorkloadId)
    requires IsRun(run) && i <= j < |run| && w in run[i].db.workloads
    ensures w in run[j].db.workloads
    ensures var a, b := run[i].db.workloads[w], run[j].db.workloads[w];
            a.status.Rank() <= b.status.Rank() &&
              (a.status.Terminal() ==> b.status == a.status && b.startedAt == a.startedAt) &&
            (a.startedAt.Some? ==> b.startedAt == a.startedAt) && (a.stoppedAt.Some? ==> b.stoppedAt == a.stoppedAt)
  {
    RunOnward(run, i, j);
    assert RowOnward(run[i].db, run[j].db, w);
  }

  /** stopped_at is set exactly when the workload is terminal. */
  lemma StampedWhenTerminal(run: seq<System>, i: nat, w: WorkloadId)
    requires IsRun(run) && i < |run| && w in run[i].db.workloads
    ensures run[i].db.workloads[w].stoppedAt.Some? <==> run[i].db.workloads[w].status.Terminal()
  {
    RunGood(run, i);
  }

  /** What runs has started, so it is billed; what stops was told to stop, so the sweep can time it;
      what waits knows since when. */
  lemma StampedOnTheWay(run: seq<System>, i: nat, w: WorkloadId)
    requires IsRun(run) && i < |run| && w in run[i].db.workloads
    ensures var row := run[i].db.workloads[w];
            && (row.status == Running ==> row.startedAt.Some?)
            && (row.status == Stopping ==> row.stoppingAt.Some?)
            && (row.status == Queued ==> row.queuedAt.Some?)
            && (row.status in {Queued, Pending} ==> row.startedAt.None?)
  {
    RunGood(run, i);
  }

  /** Once placed, a workload's holdings do not change while it lives. */
  lemma HoldingsFixed(run: seq<System>, i: nat, j: nat, w: WorkloadId)
    requires IsRun(run) && i <= j < |run| && ActiveIn(run[i].db, w) && ActiveIn(run[j].db, w)
    ensures HeldBy(run[i].db, w) == HeldBy(run[j].db, w) && run[i].db.workloads[w].node == run[j].db.workloads[w].node
  {
    RunOnward(run, i, j);
    assert RowOnward(run[i].db, run[j].db, w);
  }

  // ----- two writes without a guard

  /** The default branch of UpdateStatus would move a workload backwards exactly when the
      reported status ranks below the stored one; ReportsStayGuarded shows it is never reached. */
  lemma DefaultBranchNeedsRank(db: Db, w: WorkloadId, state: WorkloadStatus)
    requires Stamped(db) && w in db.workloads && (state.Pending? || state.Stopping?)
    ensures var d := ReportOther(db, w, state);
            (d.workloads[w].status.Rank() >= db.workloads[w].status.Rank()) <==>
            (if state.Stopping? then !db.workloads[w].status.Terminal()
             else db.workloads[w].status.Queued? || db.workloads[w].status.Pending?)
  {
  }

  lemma DefaultBranchResurrects()
    ensures exists db: Db, w ::
      Sound(db) && TerminalIn(db, w) && ActiveIn(ReportOther(db, w, Pending), w)
  {
    var row := NewWorkload(0, "any", 1, Stopped, None, 0, Some(0)).(stoppedAt := Some(5));
    var db := EMPTY.(workloads := map[7 := row]);
    assert forall w, g :: !Holds(db, w, g);
    assert Sound(db);
    assert TerminalIn(db, 7) && ActiveIn(ReportOther(db, 7, Pending), 7);
  }

  /** The UPDATE of the sweep's first case, on its own: it names the row by id only.  Stamps
      stay write-once exactly if no report ended the workload since the sweep read it, which
      holds when the sweep runs as one atomic step. */
  lemma SweepUpdateNeedsLiveRow(db: Db, w: WorkloadId, now: Time)
    requires Stamped(db) && w in db.workloads && db.workloads[w].stoppedAt != Some(now)
    ensures Written(db.workloads[w].stoppedAt, FailAll(db, {w}, Failure, now).workloads[w].stoppedAt) <==>
            !db.workloads[w].status.Terminal()
  {
  }
}
