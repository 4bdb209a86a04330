/** What the transactions of the workloads service write, read off the columns they write: literal
    times, statuses and rows. */
module Effects {
  import opened Tables
  import opened Transitions
  import opened Books
  import Runs

  // ----- placing

  /** A placed workload holds its claim, all of it in use now, and nothing else changed hands. */
  ghost predicate TookExactly(a: Db, b: Db, w: WorkloadId, gs: set<GpuId>) {
    && b.nodes == a.nodes && HeldBy(b, w) == gs && b.gpus.Keys == a.gpus.Keys
    && (forall g | g in a.gpus :: b.gpus[g] == if g in gs then a.gpus[g].(status := InUse) else a.gpus[g])
    && (forall v, g | v != w :: Holds(b, v, g) <==> Holds(a, v, g))
    && (forall k :: k in b.attachments <==> k in a.attachments || (k.0 == w && k.1 in gs))
    && (forall k | k in b.attachments :: b.attachments[k] == if k in a.attachments then a.attachments[k] else None)
  }

  lemma PlacedTakes(db: Db, w: WorkloadId, row: Workload, p: Placement, c: CommandId, now: Time)
    requires Linked(db) && (w !in db.workloads || db.workloads[w].status.Queued?)
    requires forall g | g in p.gpus :: g in db.gpus
    requires Attach(db.(workloads := db.workloads[w := row]), w, p.gpus).Ok?
    ensures var at := Attach(db.(workloads := db.workloads[w := row]), w, p.gpus).value;
            TookExactly(db, at, w, p.gpus) && at.workloads == db.workloads[w := row] && at.commands == db.commands
  {
    var at := Attach(db.(workloads := db.workloads[w := row]), w, p.gpus).value;
    forall v, g ensures Holds(at, v, g) <==> (v == w && g in p.gpus) || (v != w && Holds(db, v, g)) {
      assert (w, g) !in db.attachments;
    }
  }

  /** A launch command as it is enqueued: due at once, and for 600 s. */
  function LaunchRow(n: NodeId, w: WorkloadId, now: Time): Command {
    Command(n, w, LaunchCmd, Unsent, 0, now, Some(now + 600 * SECOND), now)
  }

  function PendingRow(org: OrgId, gpuType: string, count: nat, n: NodeId, now: Time): Workload {
    Workload(org, gpuType, count, Pending, Some(n), now, None, None, None, None, None)
  }

  lemma LaunchWrites(db: Db, w: WorkloadId, org: OrgId, gpuType: string, count: nat, p: Placement, c: CommandId,
                     now: Time)
    requires Linked(db) && w !in db.workloads && LaunchPlaced(db, w, org, gpuType, count, p, c, now).Ok?
    requires forall g | g in p.gpus :: g in db.gpus
    ensures var d := LaunchPlaced(db, w, org, gpuType, count, p, c, now).value;
            && TookExactly(db, d, w, p.gpus)
            && d.workloads == db.workloads[w := PendingRow(org, gpuType, count, p.node, now)]
            && d.commands == db.commands[c := LaunchRow(p.node, w, now)]
  {
    var row := NewWorkload(org, gpuType, count, Pending, Some(p.node), now, None);
    PlacedTakes(db, w, row, p, c, now);
    var at, d := Attach(db.(workloads := db.workloads[w := row]), w, p.gpus).value,
      LaunchPlaced(db, w, org, gpuType, count, p, c, now).value;
    forall v, g ensures Holds(d, v, g) == Holds(at, v, g) {}
    assert HeldBy(d, w) == HeldBy(at, w);
  }

  lemma PromoteWrites(db: Db, w: WorkloadId, p: Placement, c: CommandId, now: Time)
    requires Linked(db) && Promote(db, w, p, c, now).Ok?
    requires forall g | g in p.gpus :: g in db.gpus
    ensures var d := Promote(db, w, p, c, now).value;
            && w in db.workloads && db.workloads[w].status == Queued && TookExactly(db, d, w, p.gpus)
            && d.workloads == db.workloads[w := db.workloads[w].(status := Pending, node := Some(p.node))]
            && d.commands == db.commands[c := LaunchRow(p.node, w, now)]
  {
    var row := db.workloads[w].(status := Pending, node := Some(p.node));
    PlacedTakes(db, w, row, p, c, now);
    var at, d := Attach(db.(workloads := db.workloads[w := row]), w, p.gpus).value, Promote(db, w, p, c, now).value;
    forall v, g ensures Holds(d, v, g) == Holds(at, v, g) {}
    assert HeldBy(d, w) == HeldBy(at, w);
  }

  // ----- agent reports

  /** A workload that ended: its row is stamped, its open attachments are closed at that time, the
      GPUs it held are idle, and nothing else changed. */
  ghost predicate EndedAt(a: Db, b: Db, w: WorkloadId, state: WorkloadStatus, now: Time) {
    && w in a.workloads && b.workloads == a.workloads[w := a.workloads[w].(status := state, stoppedAt := Some(now))]
    && b.nodes == a.nodes && b.commands == a.commands && HeldBy(b, w) == {} && b.gpus.Keys == a.gpus.Keys
    && b.attachments.Keys == a.attachments.Keys
    && (forall k | k in a.attachments ::
          b.attachments[k] == if k.0 == w && a.attachments[k] == None then Some(now) else a.attachments[k])
    && (forall g | g in a.gpus :: b.gpus[g] == if g in HeldBy(a, w) then a.gpus[g].(status := Idle) else a.gpus[g])
  }

  /** A report applied at once.  Running lands on pending and running rows and keeps the first start;
      on a terminal row it sends one stop to the node; otherwise it is ignored.  Stopped and failed
      end a workload that has not ended. */
  ghost predicate ReportWrites(a: Db, b: Db, n: NodeId, w: WorkloadId, state: WorkloadStatus, c: CommandId, now: Time)
    requires w in a.workloads
  {
    var row := a.workloads[w];
    match state
    case Running =>
      if row.status in {Pending, Running} then
        var start := if row.startedAt == None then now else row.startedAt.value;
        b == a.(workloads := a.workloads[w := row.(status := Running, startedAt := Some(start))])
      else if row.status in {Stopped, Failed} && n in a.nodes then
        b == a.(commands := a.commands[c := Command(n, w, StopCmd, Unsent, 0, now, None, now)])
      else b == a
    case Stopped => if row.status in {Stopped, Failed} then b == a else EndedAt(a, b, w, Stopped, now)
    case Failed => if row.status in {Stopped, Failed} then b == a else EndedAt(a, b, w, Failed, now)
    case other => b == a.(workloads := a.workloads[w := row.(status := other)])
  }

  lemma EndWrites(db: Db, w: WorkloadId, state: WorkloadStatus, now: Time)
    requires w in db.workloads && !db.workloads[w].status.Terminal()
    ensures EndedAt(db, ReportTerminal(db, w, state, HeldBy(db, w), now), w, state, now)
  {
    var d := ReportTerminal(db, w, state, HeldBy(db, w), now);
    assert forall g :: !Holds(d, w, g);
  }

  lemma AppliedWrites(db: Db, n: NodeId, w: WorkloadId, state: WorkloadStatus, c: CommandId, now: Time)
    requires w in db.workloads
    ensures var r := Runs.Loaded(n, w, state, db.workloads[w].status, HeldBy(db, w));
            ReportWrites(db, Runs.ApplyReport(db, r, c, now), n, w, state, c, now)
  {
    if state.Terminal() && !db.workloads[w].status.Terminal() { EndWrites(db, w, state, now); }
  }

  // ----- the sweep

  /** Why a sweep fails a workload: its node is offline and not seen for 120 s, or it has been
      stopping for 120 s, or it is pending and its launch missed its deadline. */
  ghost predicate Lost(db: Db, w: WorkloadId, now: Time) {
    w in db.workloads &&
    var row := db.workloads[w];
    || (row.status in {Pending, Running, Stopping} && row.node.Some? && row.node.value in db.nodes &&
        db.nodes[row.node.value].status == Offline &&
        (db.nodes[row.node.value].lastSeen == None || now - db.nodes[row.node.value].lastSeen.value > 120 * SECOND))
    || (row.status == Stopping && row.node.Some? && row.node.value in db.nodes &&
        now - (if row.stoppingAt == None then row.createdAt else row.stoppingAt.value) > 120 * SECOND)
    || (row.status == Pending && exists c | c in db.commands :: MissedLaunch(db.commands[c], w, now))
  }

  predicate MissedLaunch(c: Command, w: WorkloadId, now: Time) {
    c.workload == w && c.kind == LaunchCmd && Missed(c, now)
  }

  predicate Missed(c: Command, now: Time) {
    c.status in {Unsent, Sent} && c.deliverBy != None && now > c.deliverBy.value
  }

  lemma LostIsReclaimed(db: Db, now: Time)
    ensures forall w :: Lost(db, w, now) <==> w in Reclaimed(db, now)
  {
    forall w ensures Lost(db, w, now) <==> w in Reclaimed(db, now) {
      assert forall c | c in db.commands :: Missed(db.commands[c], now) == Overdue(db.commands[c], now);
      if w in db.workloads && db.workloads[w].status.Pending? {
        if Undelivered(db, w, now) {
          var c :| c in db.commands && db.commands[c].workload == w && db.commands[c].kind.LaunchCmd? &&
            Overdue(db.commands[c], now);
          assert MissedLaunch(db.commands[c], w, now);
        }
      }
    }
  }

  /** A sweep fails exactly the lost workloads, stamps them, keeps an earlier reason, and leaves every
      other row as it was. */
  lemma SweepFailsExactly(db: Db, now: Time, w: WorkloadId)
    requires w in db.workloads
    ensures Sweep(db, now).workloads.Keys == db.workloads.Keys
    ensures var row, after := db.workloads[w], Sweep(db, now).workloads[w];
            if Lost(db, w, now) then
              after == row.(status := Failed, stoppedAt := Some(now),
                            stopReason := if row.stopReason == None then Some(Failure) else row.stopReason)
            else after == row
  {
    LostIsReclaimed(db, now);
    SweepTables(db, now);
  }

  /** The lost workloads failed, and every other row is as it was. */
  ghost predicate LostFailed(db: Db, after: map<WorkloadId, Workload>, now: Time) {
    after.Keys == db.workloads.Keys &&
    forall w | w in db.workloads ::
      var row := db.workloads[w];
      after[w] ==
        if Lost(db, w, now) then
          row.(status := Failed, stoppedAt := Some(now),
               stopReason := if row.stopReason == None then Some(Failure) else row.stopReason)
        else row
  }

  lemma SweepTold(db: Db, now: Time)
    ensures LostFailed(db, Sweep(db, now).workloads, now)
    ensures |Reclaimed(db, now)| == |set w | w in db.workloads && Lost(db, w, now)|
  {
    LostIsReclaimed(db, now);
    SweepTables(db, now);
    assert (set w | w in db.workloads && Lost(db, w, now)) == Reclaimed(db, now);
    forall w | w in db.workloads { SweepFailsExactly(db, now, w); }
  }

  /** Their open attachments are closed at that time, and no other. */
  lemma SweepDetachesExactly(db: Db, now: Time)
    ensures Sweep(db, now).attachments.Keys == db.attachments.Keys
    ensures forall k | k in db.attachments ::
              Sweep(db, now).attachments[k] ==
                if Lost(db, k.0, now) && db.attachments[k] == None then Some(now) else db.attachments[k]
  {
    LostIsReclaimed(db, now);
    SweepTables(db, now);
  }

  ghost predicate HeldLive(db: Db, g: GpuId) {
    exists w | w in db.workloads :: (w, g) in db.attachments && db.attachments[(w, g)] == None &&
                                    db.workloads[w].status in {Pending, Running, Stopping}
  }

  /** Whatever state it finds: afterwards exactly those of the GPUs in use that no live workload has
      attached are idle, so leaked ones are healed. */
  lemma SweepFreesExactly(db: Db, now: Time)
    ensures Sweep(db, now).gpus.Keys == db.gpus.Keys
    ensures forall g | g in db.gpus ::
              Sweep(db, now).gpus[g] ==
                if db.gpus[g].status == InUse && !HeldLive(Sweep(db, now), g) then db.gpus[g].(status := Idle)
                else db.gpus[g]
  {
    SweepTables(db, now);
    var d := Sweep(db, now);
    forall g | g in db.gpus ensures HeldByActive(d, g) == HeldLive(d, g) {
      if w :| w in d.workloads && Holds(d, w, g) && d.workloads[w].status.Active() {
        assert (w, g) in d.attachments && d.attachments[(w, g)] == None;
      }
      if HeldLive(d, g) {
        var w :| w in d.workloads && (w, g) in d.attachments && d.attachments[(w, g)] == None &&
          d.workloads[w].status in {Pending, Running, Stopping};
        assert Holds(d, w, g);
      }
    }
  }

  /** And it closes exactly the commands that missed their deadline or whose workload has ended. */
  lemma SweepClosesExactly(db: Db, now: Time, c: CommandId)
    requires c in db.commands
    ensures Sweep(db, now).commands.Keys == db.commands.Keys
    ensures var row, d := db.commands[c], Sweep(db, now);
            d.commands[c] ==
              if Missed(row, now) then row.(status := Expired)
              else if row.status in {Unsent, Sent} && row.workload in d.workloads &&
                      d.workloads[row.workload].status in {Stopped, Failed} then row.(status := Superseded)
              else row
  {
    SweepTables(db, now);
    var f := Detach(FailAll(db, Reclaimed(db, now), Failure, now), Reclaimed(db, now), now);
    assert Sweep(db, now).workloads == f.workloads;
    assert TerminalIn(f, db.commands[c].workload) == TerminalIn(Sweep(db, now), db.commands[c].workload);
  }

  /** Afterwards nothing is lost any more, and no open command is past its deadline. */
  lemma NothingLostAfterSweep(db: Db, now: Time)
    ensures forall w :: !Lost(Sweep(db, now), w, now)
    ensures forall c | c in Sweep(db, now).commands :: !Missed(Sweep(db, now).commands[c], now)
  {
    var d := Sweep(db, now);
    SweepTables(db, now);
    forall c | c in d.commands ensures !Missed(d.commands[c], now) { SweepClosesExactly(db, now, c); }
    forall w ensures !Lost(d, w, now) {
      if w in d.workloads { SweepFailsExactly(db, now, w); }
    }
  }

  // ----- node removal

  predicate BusyOn(db: Db, n: NodeId, w: WorkloadId) {
    w in db.workloads && db.workloads[w].node == Some(n) && db.workloads[w].status in {Pending, Running, Stopping}
  }

  /** The node is gone with its GPUs, their attachments and its commands; what was busy there failed,
      what was there before keeps its history without the node; everything else is as it was. */
  ghost predicate NodeGoneFrom(a: Db, b: Db, n: NodeId, now: Time) {
    && (forall m :: m in b.nodes <==> m in a.nodes && m != n) && (forall m | m in b.nodes :: b.nodes[m] == a.nodes[m])
    && (forall g :: g in b.gpus <==> g in a.gpus && a.gpus[g].node != n)
    && (forall g | g in b.gpus :: b.gpus[g] == a.gpus[g])
    && (forall k :: k in b.attachments <==> k in a.attachments && (k.1 in a.gpus ==> a.gpus[k.1].node != n))
    && (forall k | k in b.attachments :: b.attachments[k] == a.attachments[k])
    && (forall c :: c in b.commands <==> c in a.commands && a.commands[c].node != n)
    && (forall c | c in b.commands :: b.commands[c] == a.commands[c])
    && b.workloads.Keys == a.workloads.Keys
    && (forall w | w in a.workloads ::
          var row := a.workloads[w];
          b.workloads[w] ==
            if row.node != Some(n) then row
            else if row.status in {Pending, Running, Stopping} then
              row.(node := None, status := Failed, stoppedAt := Some(now),
                   stopReason := if row.stopReason == None then Some(ByAdmin) else row.stopReason)
            else row.(node := None))
  }

  lemma RemoveWrites(db: Db, org: OrgId, n: NodeId, force: bool, now: Time)
    requires RemoveNode(db, org, n, force, now).Ok?
    ensures NodeGoneFrom(db, RemoveNode(db, org, n, force, now).value, n, now)
  {
    var f := FailAll(db, ActiveOn(db, n), ByAdmin, now);
    assert forall w | w in db.workloads :: f.workloads[w].node == db.workloads[w].node;
  }
}
