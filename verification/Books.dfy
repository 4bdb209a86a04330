/** What every reachable database satisfies, and a proof for each transaction that it keeps it. */
module Books {
  import opened Tables
  import opened Transitions
  import Outbox

  /** Foreign keys hold, a queued workload owns no row anywhere, and attachments, open or closed,
      are on the workload's node. */
  ghost predicate Linked(db: Db) {
    && (forall g | g in db.gpus :: db.gpus[g].node in db.nodes)
    && (forall w | w in db.workloads ::
          (db.workloads[w].node.Some? ==> db.workloads[w].node.value in db.nodes) &&
          (db.workloads[w].status.Queued? ==> db.workloads[w].node.None?))
    && (forall k | k in db.attachments ::
          k.0 in db.workloads && !db.workloads[k.0].status.Queued? && k.1 in db.gpus &&
          db.workloads[k.0].node == Some(db.gpus[k.1].node))
    && (forall c | c in db.commands ::
          db.commands[c].node in db.nodes &&
          db.commands[c].workload in db.workloads && !db.workloads[db.commands[c].workload].status.Queued?)
  }

  /** An open attachment ties an active workload to an in_use GPU of its own node. */
  ghost predicate HoldersActive(db: Db) {
    forall w, g | Holds(db, w, g) ::
      ActiveIn(db, w) && g in db.gpus && db.gpus[g].status.InUse? && db.workloads[w].node == Some(db.gpus[g].node)
  }

  ghost predicate InUseHeld(db: Db) {
    forall g | g in db.gpus && db.gpus[g].status.InUse? :: exists w :: Holds(db, w, g)
  }

  ghost predicate OneHolder(db: Db) {
    forall v, w, g | Holds(db, v, g) && Holds(db, w, g) :: v == w
  }

  ghost predicate FullyPlaced(db: Db) {
    forall w | ActiveIn(db, w) :: db.workloads[w].node.Some? && |HeldBy(db, w)| == db.workloads[w].count
  }

  /** The GPU books: in_use exactly when held once by an active workload; an active workload
      holds exactly what it asked for, on one node. */
  ghost predicate Booked(db: Db) {
    HoldersActive(db) && InUseHeld(db) && OneHolder(db) && FullyPlaced(db)
  }

  predicate StampedRow(row: Workload) {
    && (row.status.Queued? || row.status.Pending? ==> row.startedAt.None?)
    && (row.status.Running? ==> row.startedAt.Some?)
    && (row.status.Stopping? ==> row.stoppingAt.Some?)
    && (row.status.Queued? ==> row.queuedAt.Some?)
  }

  /** stopped_at is set exactly on terminal rows; what runs has started, what stops was told to,
      what waits was queued; nothing starts before it is placed and running. */
  ghost predicate Stamped(db: Db) {
    forall w | w in db.workloads ::
      var row := db.workloads[w];
      (row.stoppedAt.Some? <==> row.status.Terminal()) && StampedRow(row)
  }

  predicate IsCommand(db: Db, c: CommandId, w: WorkloadId, kind: CommandKind) {
    c in db.commands && db.commands[c].workload == w && db.commands[c].kind == kind
  }

  predicate Standing(db: Db, c: CommandId, n: NodeId) {
    c in db.commands && db.commands[c].node == n &&
    !db.commands[c].status.Expired? && !db.commands[c].status.Superseded?
  }

  /** The row's own consistency: only launches have a deadline, so only launches expire, and
      an expired or superseded row has lost its purpose. */
  ghost predicate RowSound(db: Db, c: CommandId)
    requires c in db.commands
  {
    var row := db.commands[c];
    (row.kind.LaunchCmd? <==> row.deliverBy.Some?) &&
    (row.status.Expired? ==> row.kind.LaunchCmd? && row.workload in db.workloads &&
                             !db.workloads[row.workload].status.Pending?) &&
    (row.status.Superseded? ==> TerminalIn(db, row.workload))
  }

  /** The outbox agrees with the workloads. */
  ghost predicate Outboxed(db: Db) {
    && (forall c | c in db.commands :: RowSound(db, c))
    && (forall w, c, d | IsCommand(db, c, w, LaunchCmd) && IsCommand(db, d, w, LaunchCmd) :: c == d)
    && (forall w | w in db.workloads && db.workloads[w].status.Pending? && db.workloads[w].node.Some? ::
          exists c :: IsCommand(db, c, w, LaunchCmd) && Standing(db, c, db.workloads[w].node.value))
    && (forall w | w in db.workloads && db.workloads[w].status.Stopping? && db.workloads[w].node.Some? ::
          exists c :: IsCommand(db, c, w, StopCmd) && Standing(db, c, db.workloads[w].node.value))
  }

  ghost predicate Sound(db: Db) {
    Linked(db) && Booked(db) && Stamped(db) && Outboxed(db)
  }

  // ----- frames: what does not touch a table keeps what that table promises

  /** Booked depends on GPUs, attachments, and each workload's status, node and count. */
  ghost predicate SameBooks(a: Db, b: Db) {
    a.gpus == b.gpus && a.attachments == b.attachments && a.workloads.Keys == b.workloads.Keys &&
    forall w | w in a.workloads ::
      a.workloads[w].node == b.workloads[w].node && a.workloads[w].count == b.workloads[w].count &&
      (a.workloads[w].status.Active() <==> b.workloads[w].status.Active())
  }

  lemma FrameBooks(a: Db, b: Db)
    requires Booked(a) && SameBooks(a, b)
    ensures Booked(b)
  {
    forall w ensures HeldBy(a, w) == HeldBy(b, w) {}
    forall w, g ensures Holds(a, w, g) == Holds(b, w, g) {}
  }

  /** Outboxed survives any change that only moves rows forward within their open life. */
  ghost predicate RowsKept(a: Db, b: Db) {
    a.commands.Keys == b.commands.Keys &&
    forall c | c in a.commands ::
      var r, s := a.commands[c], b.commands[c];
      r.node == s.node && r.workload == s.workload && r.kind == s.kind && r.deliverBy == s.deliverBy &&
      (s.status.Expired? ==> r.status.Expired?) && (s.status.Superseded? ==> r.status.Superseded?)
  }

  lemma FrameOutbox(a: Db, b: Db)
    requires Outboxed(a) && RowsKept(a, b) && a.workloads == b.workloads
    ensures Outboxed(b)
  {
    forall c, w, k ensures IsCommand(a, c, w, k) == IsCommand(b, c, w, k) {}
    forall c, n | Standing(a, c, n) ensures Standing(b, c, n) {}
    forall c | c in b.commands ensures RowSound(b, c) { assert RowSound(a, c); }
  }

  // ----- placement

  /** Attach succeeds on free GPUs, and then the new holder holds exactly those. */
  lemma AttachOk(db: Db, w: WorkloadId, gs: set<GpuId>)
    requires HoldersActive(db) && Linked(db)
    requires forall g | g in gs :: g in db.gpus && db.gpus[g].status.Idle?
    requires forall k | k in db.attachments :: k.0 != w
    ensures Attach(db, w, gs).Ok?
    ensures var d := Attach(db, w, gs).value;
            d.nodes == db.nodes && d.workloads == db.workloads && d.commands == db.commands &&
            d.gpus.Keys == db.gpus.Keys &&
            HeldBy(d, w) == gs &&
            (forall v, g :: Holds(d, v, g) <==> (v == w && g in gs) || Holds(db, v, g)) &&
            (forall g | g in db.gpus :: d.gpus[g] == if g in gs then db.gpus[g].(status := InUse) else db.gpus[g]) &&
            (forall k | k in d.attachments :: k in db.attachments || (k.0 == w && k.1 in gs))
  {
    forall g | g in gs ensures (w, g) !in db.attachments && !(exists v | v in db.workloads :: Holds(db, v, g)) {
      assert forall v :: Holds(db, v, g) ==> db.gpus[g].status.InUse?;
    }
    var d := Attach(db, w, gs).value;
    forall v, g ensures Holds(d, v, g) <==> (v == w && g in gs) || Holds(db, v, g) {
      if v == w && g in gs { assert (v, g) in OpenAttachments(w, gs); }
    }
  }

  /** The claim a placement has to come with: existing idle GPUs of one node, as many as asked for. */
  ghost predicate GoodPlacement(db: Db, p: Placement, count: nat) {
    p.node in db.nodes && |p.gpus| == count &&
    forall g | g in p.gpus :: g in db.gpus && db.gpus[g].status.Idle? && db.gpus[g].node == p.node
  }

  /** `d` is `db` after w was placed on p: w's row and holdings are new, p's GPUs are in use. */
  ghost predicate PlacedOn(db: Db, d: Db, w: WorkloadId, p: Placement) {
    && d.nodes == db.nodes && d.commands == db.commands
    && w in d.workloads && d.workloads == db.workloads[w := d.workloads[w]]
    && d.workloads[w].status.Pending? && d.workloads[w].node == Some(p.node)
    && d.gpus.Keys == db.gpus.Keys
    && (forall g | g in db.gpus :: d.gpus[g] == if g in p.gpus then db.gpus[g].(status := InUse) else db.gpus[g])
    && (forall v, g :: Holds(d, v, g) <==> (v == w && g in p.gpus) || Holds(db, v, g))
    && (forall k | k in d.attachments :: k in db.attachments || (k.0 == w && k.1 in p.gpus))
    && HeldBy(d, w) == p.gpus
  }

  lemma AttachPlaces(db: Db, db1: Db, w: WorkloadId, p: Placement)
    requires Linked(db) && HoldersActive(db)
    requires w !in db.workloads || db.workloads[w].status.Queued?
    requires w in db1.workloads && db1.workloads[w].status.Pending? && db1.workloads[w].node == Some(p.node)
    requires db1 == db.(workloads := db.workloads[w := db1.workloads[w]])
    requires GoodPlacement(db, p, db1.workloads[w].count)
    ensures Attach(db1, w, p.gpus).Ok? && PlacedOn(db, Attach(db1, w, p.gpus).value, w, p)
  {
    forall v, g ensures Holds(db1, v, g) == Holds(db, v, g) {}
    assert HoldersActive(db1) by {
      forall v, g | Holds(db1, v, g) ensures ActiveIn(db1, v) && db1.workloads[v].node == Some(db1.gpus[g].node) {
        assert Holds(db, v, g) && v != w;
      }
    }
    AttachOk(db1, w, p.gpus);
  }

  lemma PlacedHolders(db: Db, d: Db, w: WorkloadId, p: Placement)
    requires Linked(db) && Booked(db) && PlacedOn(db, d, w, p)
    requires w !in db.workloads || db.workloads[w].status.Queued?
    requires GoodPlacement(db, p, d.workloads[w].count)
    ensures HoldersActive(d) && InUseHeld(d)
  {
    forall v, g | Holds(d, v, g)
      ensures ActiveIn(d, v) && g in d.gpus && d.gpus[g].status.InUse? && d.workloads[v].node == Some(d.gpus[g].node)
    {
      if !(v == w && g in p.gpus) { assert Holds(db, v, g) && v != w; }
    }
    forall g | g in d.gpus && d.gpus[g].status.InUse? ensures exists v :: Holds(d, v, g) {
      if g in p.gpus { assert Holds(d, w, g); }
      else { var v :| Holds(db, v, g); assert Holds(d, v, g); }
    }
  }

  lemma PlacedCounts(db: Db, d: Db, w: WorkloadId, p: Placement)
    requires Linked(db) && Booked(db) && PlacedOn(db, d, w, p)
    requires w !in db.workloads || db.workloads[w].status.Queued?
    requires GoodPlacement(db, p, d.workloads[w].count)
    ensures OneHolder(d) && FullyPlaced(d)
  {
    forall u, v, g | Holds(d, u, g) && Holds(d, v, g) ensures u == v {
      assert forall x :: Holds(db, x, g) ==> g !in p.gpus;
    }
    forall v | ActiveIn(d, v) ensures d.workloads[v].node.Some? && |HeldBy(d, v)| == d.workloads[v].count {
      if v != w {
        assert ActiveIn(db, v);
        assert HeldBy(d, v) == HeldBy(db, v) by {
          forall g ensures g in HeldBy(d, v) <==> g in HeldBy(db, v) { assert Holds(d, v, g) == Holds(db, v, g); }
        }
      }
    }
  }

  lemma PlacedLinks(db: Db, d: Db, w: WorkloadId, p: Placement)
    requires Linked(db) && PlacedOn(db, d, w, p)
    requires w !in db.workloads || db.workloads[w].status.Queued?
    requires GoodPlacement(db, p, d.workloads[w].count)
    ensures Linked(d)
  {
    forall k | k in d.attachments ensures k.0 in d.workloads && !d.workloads[k.0].status.Queued? && k.1 in d.gpus {
      if k !in db.attachments { assert k.1 in p.gpus; }
    }
    forall g | g in d.gpus ensures d.gpus[g].node in d.nodes { assert db.gpus[g].node in db.nodes; }
  }

  /** Common part of launch and promotion: the guards cannot fail and everything still agrees. */
  lemma PlacedSound(db: Db, db1: Db, w: WorkloadId, p: Placement, c: CommandId, now: Time)
    requires Sound(db) && c !in db.commands
    requires w !in db.workloads || db.workloads[w].status.Queued?
    requires w in db1.workloads && db1.workloads[w].status.Pending? && db1.workloads[w].node == Some(p.node)
    requires db1.workloads[w].startedAt.None? && db1.workloads[w].stoppedAt.None?
    requires db1 == db.(workloads := db.workloads[w := db1.workloads[w]])
    requires GoodPlacement(db, p, db1.workloads[w].count)
    ensures Attach(db1, w, p.gpus).Ok?
    ensures PlacedOn(db, Attach(db1, w, p.gpus).value, w, p)
    ensures Attach(db1, w, p.gpus).value.workloads[w] == db1.workloads[w]
    ensures Sound(Enqueue(Attach(db1, w, p.gpus).value, c, p.node, w, LaunchCmd, now))
  {
    AttachPlaces(db, db1, w, p);
    var d := Attach(db1, w, p.gpus).value;
    assert d.workloads == db1.workloads;
    PlacedHolders(db, d, w, p);
    PlacedCounts(db, d, w, p);
    PlacedLinks(db, d, w, p);
    NoCommandYet(db, d, w);
    assert Stamped(d);
    PlacedOutbox(db, d, w, p);
    EnqueueLaunchSound(d, w, c, p.node, now);
  }

  lemma NoCommandYet(db: Db, d: Db, w: WorkloadId)
    requires Linked(db) && d.commands == db.commands && (w !in db.workloads || db.workloads[w].status.Queued?)
    ensures forall x | x in d.commands :: d.commands[x].workload != w
  {
  }

  lemma PlacedOutbox(db: Db, d: Db, w: WorkloadId, p: Placement)
    requires Outboxed(db) && PlacedOn(db, d, w, p)
    requires forall x | x in db.commands :: db.commands[x].workload != w
    ensures Outboxed(d.(workloads := d.workloads - {w}))
  {
    ForgetSilent(db, w);
    var a, b := db.(workloads := db.workloads - {w}), d.(workloads := d.workloads - {w});
    assert a.workloads == b.workloads;
    FrameOutbox(a, b);
  }

  /** Adding a command for w leaves the books, and closes what `Outboxed` asks of w alone. */
  lemma EnqueueLaunchSound(d: Db, w: WorkloadId, c: CommandId, n: NodeId, now: Time)
    requires Linked(d) && Booked(d) && Stamped(d)
    requires w in d.workloads && d.workloads[w].status.Pending? && d.workloads[w].node == Some(n) && n in d.nodes
    requires c !in d.commands
    requires forall x | x in d.commands :: d.commands[x].workload != w
    requires Outboxed(d.(workloads := d.workloads - {w}))
    ensures Sound(Enqueue(d, c, n, w, LaunchCmd, now))
  {
    var e := Enqueue(d, c, n, w, LaunchCmd, now);
    FrameBooks(d, e);
    var o := d.(workloads := d.workloads - {w});
    forall x, v, k ensures IsCommand(e, x, v, k) <==> IsCommand(o, x, v, k) || (x == c && v == w && k == LaunchCmd) {}
    forall x, m ensures Standing(e, x, m) <==> Standing(o, x, m) || (x == c && m == n) {}
    forall x | x in e.commands ensures RowSound(e, x) {
      if x != c { assert RowSound(o, x); }
    }
    assert IsCommand(e, c, w, LaunchCmd) && Standing(e, c, n);
    forall v | v in e.workloads && v != w && e.workloads[v].status.Pending? && e.workloads[v].node.Some?
      ensures exists x :: IsCommand(e, x, v, LaunchCmd) && Standing(e, x, e.workloads[v].node.value)
    {
      assert v in o.workloads;
      var x :| IsCommand(o, x, v, LaunchCmd) && Standing(o, x, o.workloads[v].node.value);
      assert IsCommand(e, x, v, LaunchCmd);
    }
    forall v | v in e.workloads && v != w && e.workloads[v].status.Stopping? && e.workloads[v].node.Some?
      ensures exists x :: IsCommand(e, x, v, StopCmd) && Standing(e, x, e.workloads[v].node.value)
    {
      assert v in o.workloads;
      var x :| IsCommand(o, x, v, StopCmd) && Standing(o, x, o.workloads[v].node.value);
      assert IsCommand(e, x, v, StopCmd);
    }
  }

  /** Outboxed does not need a row that no command names. */
  lemma ForgetSilent(db: Db, w: WorkloadId)
    requires Outboxed(db)
    requires forall x | x in db.commands :: db.commands[x].workload != w
    ensures Outboxed(db.(workloads := db.workloads - {w}))
  {
    var o := db.(workloads := db.workloads - {w});
    forall x, v, k ensures IsCommand(o, x, v, k) == IsCommand(db, x, v, k) {}
    forall x, m ensures Standing(o, x, m) == Standing(db, x, m) {}
    forall x | x in o.commands ensures RowSound(o, x) { assert RowSound(db, x); }
  }

  /** A launch that found room. */
  lemma LaunchPlacedSound(db: Db, w: WorkloadId, org: OrgId, gpuType: string, count: nat, p: Placement,
                          c: CommandId, now: Time)
    requires Sound(db) && w !in db.workloads && c !in db.commands && GoodPlacement(db, p, count)
    ensures LaunchPlaced(db, w, org, gpuType, count, p, c, now).Ok?
    ensures Sound(LaunchPlaced(db, w, org, gpuType, count, p, c, now).value)
  {
    var db1 := db.(workloads := db.workloads[w := NewWorkload(org, gpuType, count, Pending, Some(p.node), now, None)]);
    PlacedSound(db, db1, w, p, c, now);
  }

  /** A queued workload that now fits. */
  lemma PromoteSound(db: Db, w: WorkloadId, p: Placement, c: CommandId, now: Time)
    requires Sound(db) && c !in db.commands
    requires w in db.workloads && db.workloads[w].status.Queued? && GoodPlacement(db, p, db.workloads[w].count)
    ensures Promote(db, w, p, c, now).Ok?
    ensures Sound(Promote(db, w, p, c, now).value)
  {
    var db1 := db.(workloads := db.workloads[w := db.workloads[w].(status := Pending, node := Some(p.node))]);
    PlacedSound(db, db1, w, p, c, now);
  }

  // ----- terminal transitions

  /** `d` is `db` after the workloads ws ended: their rows are terminal and stamped, their open
      attachments closed, and exactly the GPUs they held became idle. */
  ghost predicate Retired(db: Db, d: Db, ws: set<WorkloadId>) {
    && d.nodes == db.nodes && d.workloads.Keys == db.workloads.Keys
    && d.gpus.Keys == db.gpus.Keys && d.attachments.Keys == db.attachments.Keys
    && (forall w | w in db.workloads ::
          if w in ws then
            d.workloads[w].status.Terminal() && d.workloads[w].stoppedAt.Some? &&
              d.workloads[w].node == db.workloads[w].node
          else d.workloads[w] == db.workloads[w])
    && (forall v, g :: Holds(d, v, g) <==> Holds(db, v, g) && v !in ws)
    && (forall g | g in db.gpus ::
          d.gpus[g] == if exists w | w in ws :: Holds(db, w, g) then db.gpus[g].(status := Idle) else db.gpus[g])
  }

  lemma RetiredBooked(db: Db, d: Db, ws: set<WorkloadId>)
    requires Linked(db) && Booked(db) && Retired(db, d, ws)
    ensures Booked(d)
  {
    forall v, g | Holds(d, v, g)
      ensures ActiveIn(d, v) && g in d.gpus && d.gpus[g].status.InUse? && d.workloads[v].node == Some(d.gpus[g].node)
    {
      assert Holds(db, v, g);
      assert forall w | w in ws :: !Holds(db, w, g);
    }
    forall g | g in d.gpus && d.gpus[g].status.InUse? ensures exists v :: Holds(d, v, g) {
      assert db.gpus[g].status.InUse?;
      var v :| Holds(db, v, g);
      assert Holds(d, v, g);
    }
    forall v | ActiveIn(d, v) ensures d.workloads[v].node.Some? && |HeldBy(d, v)| == d.workloads[v].count {
      assert v !in ws && ActiveIn(db, v);
      assert HeldBy(d, v) == HeldBy(db, v) by {
        forall g ensures g in HeldBy(d, v) <==> g in HeldBy(db, v) { assert Holds(d, v, g) == Holds(db, v, g); }
      }
    }
  }

  lemma RetiredLinked(db: Db, d: Db, ws: set<WorkloadId>)
    requires Linked(db) && Stamped(db) && Retired(db, d, ws)
    requires d.commands.Keys == db.commands.Keys
    requires forall c | c in db.commands :: d.commands[c].node == db.commands[c].node &&
                                            d.commands[c].workload == db.commands[c].workload
    ensures Linked(d) && Stamped(d)
  {
    forall k | k in d.attachments ensures k.0 in d.workloads && !d.workloads[k.0].status.Queued? && k.1 in d.gpus {
      assert k in db.attachments;
    }
    forall g | g in d.gpus ensures d.gpus[g].node in d.nodes { assert db.gpus[g].node in db.nodes; }
  }

  /** Rows change only by expiring or by being superseded, and never while a live workload needs them. */
  ghost predicate RowsClose(db: Db, d: Db) {
    d.commands.Keys == db.commands.Keys &&
    forall c | c in db.commands ::
      var r, s := db.commands[c], d.commands[c];
      || s == r
      || (s == r.(status := Expired) && r.deliverBy.Some? && r.workload in d.workloads &&
        !d.workloads[r.workload].status.Pending?)
      || (s == r.(status := Superseded) && TerminalIn(d, r.workload))
  }

  lemma ClosedNeeded(db: Db, d: Db, c: CommandId, w: WorkloadId, kind: CommandKind, n: NodeId)
    requires RowsClose(db, d) && c in db.commands && RowSound(db, c)
    requires w in d.workloads &&
             (if kind.LaunchCmd? then d.workloads[w].status.Pending? else d.workloads[w].status.Stopping?)
    requires IsCommand(db, c, w, kind) && Standing(db, c, n)
    ensures IsCommand(d, c, w, kind) && Standing(d, c, n)
  {
  }

  /** Commands may close while workloads end, as long as no live workload loses its own row. */
  lemma RetiredOutbox(db: Db, d: Db, ws: set<WorkloadId>)
    requires Linked(db) && Outboxed(db) && Retired(db, d, ws) && RowsClose(db, d)
    ensures Outboxed(d)
  {
    forall c, w, k ensures IsCommand(d, c, w, k) == IsCommand(db, c, w, k) {}
    forall c | c in d.commands ensures RowSound(d, c) { assert RowSound(db, c); }
    forall w | w in d.workloads && d.workloads[w].status.Pending? && d.workloads[w].node.Some?
      ensures exists c :: IsCommand(d, c, w, LaunchCmd) && Standing(d, c, d.workloads[w].node.value)
    {
      var c :| IsCommand(db, c, w, LaunchCmd) && Standing(db, c, db.workloads[w].node.value);
      ClosedNeeded(db, d, c, w, LaunchCmd, d.workloads[w].node.value);
    }
    forall w | w in d.workloads && d.workloads[w].status.Stopping? && d.workloads[w].node.Some?
      ensures exists c :: IsCommand(d, c, w, StopCmd) && Standing(d, c, d.workloads[w].node.value)
    {
      var c :| IsCommand(db, c, w, StopCmd) && Standing(db, c, db.workloads[w].node.value);
      ClosedNeeded(db, d, c, w, StopCmd, d.workloads[w].node.value);
    }
  }

  /** A terminal report frees the GPUs an earlier read listed; on a live workload whose list is
      current, that ends exactly this workload. */
  lemma ReportTerminalRetires(db: Db, w: WorkloadId, state: WorkloadStatus, seen: set<GpuId>, now: Time)
    requires ActiveIn(db, w) && state.Terminal() && seen == HeldBy(db, w)
    ensures Retired(db, ReportTerminal(db, w, state, seen, now), {w})
    ensures ReportTerminal(db, w, state, seen, now).commands == db.commands
    ensures var d := ReportTerminal(db, w, state, seen, now);
            d.workloads[w] == db.workloads[w].(status := state, stoppedAt := Some(now))
  {
    var d := ReportTerminal(db, w, state, seen, now);
    forall v, g ensures Holds(d, v, g) <==> Holds(db, v, g) && v !in {w} {}
    forall g | g in db.gpus
      ensures d.gpus[g] == if exists v | v in {w} :: Holds(db, v, g) then db.gpus[g].(status := Idle) else db.gpus[g]
    {
      assert g in seen <==> Holds(db, w, g);
      if g in seen { assert w in {w}; }
    }
  }

  /** If the workload is not live any more the guard ignores the report. */
  lemma ReportTerminalSound(db: Db, w: WorkloadId, state: WorkloadStatus, seen: set<GpuId>, now: Time)
    requires Sound(db) && state.Terminal()
    requires ActiveIn(db, w) ==> seen == HeldBy(db, w)
    requires w in db.workloads ==> !db.workloads[w].status.Queued?
    ensures Sound(ReportTerminal(db, w, state, seen, now))
  {
    if ActiveIn(db, w) {
      var d := ReportTerminal(db, w, state, seen, now);
      ReportTerminalRetires(db, w, state, seen, now);
      RetiredBooked(db, d, {w});
      RetiredLinked(db, d, {w});
      RetiredOutbox(db, d, {w});
    }
  }

  lemma CancelQueuedSound(db: Db, w: WorkloadId, now: Time)
    requires Sound(db) && CancelQueued(db, w, now).Ok?
    ensures Sound(CancelQueued(db, w, now).value)
  {
    var d := CancelQueued(db, w, now).value;
    forall v, g ensures Holds(d, v, g) == Holds(db, v, g) {}
    assert forall g :: !Holds(db, w, g);
    assert Retired(db, d, {w});
    RetiredBooked(db, d, {w});
    RetiredLinked(db, d, {w});
    RetiredOutbox(db, d, {w});
  }

  /** What the sweep leaves behind, table by table. */
  lemma SweepTables(db: Db, now: Time)
    ensures var ws, d := Reclaimed(db, now), Sweep(db, now);
            d.nodes == db.nodes && d.gpus.Keys == db.gpus.Keys && d.attachments.Keys == db.attachments.Keys &&
            d.commands.Keys == db.commands.Keys &&
            d.workloads == FailAll(db, ws, Failure, now).workloads &&
            (forall v, g :: Holds(d, v, g) <==> Holds(db, v, g) && v !in ws) &&
            (forall g | g in db.gpus ::
               d.gpus[g] == if db.gpus[g].status.InUse? && !HeldByActive(d, g) then db.gpus[g].(status := Idle)
                            else db.gpus[g])
  {
    var ws, d := Reclaimed(db, now), Sweep(db, now);
    var d1 := CloseCommands(Detach(FailAll(db, ws, Failure, now), ws, now), now);
    forall v, g ensures Holds(d1, v, g) <==> Holds(db, v, g) && v !in ws {}
    forall v, g ensures Holds(d, v, g) <==> Holds(d1, v, g) {}
    forall g | g in db.gpus ensures HeldByActive(d, g) == HeldByActive(d1, g) {
      assert forall w :: Holds(d, w, g) == Holds(d1, w, g);
      assert d.workloads == d1.workloads;
    }
  }

  /** The books tell the sweep's subquery exactly which GPUs to free: those of the reclaimed. */
  lemma SweepRetires(db: Db, now: Time)
    requires Linked(db) && Booked(db)
    ensures Retired(db, Sweep(db, now), Reclaimed(db, now))
  {
    var ws, d := Reclaimed(db, now), Sweep(db, now);
    SweepTables(db, now);
    forall g | g in db.gpus
      ensures d.gpus[g] == if exists w | w in ws :: Holds(db, w, g) then db.gpus[g].(status := Idle) else db.gpus[g]
    {
      if db.gpus[g].status.InUse? { SweepFrees(db, now, g); }
    }
  }

  lemma SweepFrees(db: Db, now: Time, g: GpuId)
    requires Linked(db) && Booked(db) && g in db.gpus && db.gpus[g].status.InUse?
    ensures HeldByActive(Sweep(db, now), g) <==> !exists w | w in Reclaimed(db, now) :: Holds(db, w, g)
  {
    var ws, d := Reclaimed(db, now), Sweep(db, now);
    SweepTables(db, now);
    var v :| Holds(db, v, g);
    assert ActiveIn(db, v);
    assert forall w :: Holds(db, w, g) ==> w == v;
    if v !in ws {
      assert Holds(d, v, g) && d.workloads[v] == db.workloads[v];
    }
  }

  lemma SweepSound(db: Db, now: Time)
    requires Sound(db)
    ensures Sound(Sweep(db, now))
  {
    var ws := Reclaimed(db, now);
    var d := Sweep(db, now);
    SweepRetires(db, now);
    RetiredBooked(db, d, ws);
    forall c | c in db.commands
      ensures var r, s := db.commands[c], d.commands[c];
              || s == r
              || (s == r.(status := Expired) && r.deliverBy.Some? && !d.workloads[r.workload].status.Pending?)
              || (s == r.(status := Superseded) && TerminalIn(d, r.workload))
    {
      var r := db.commands[c];
      assert RowSound(db, c);
      if Overdue(r, now) && db.workloads[r.workload].status.Pending? {
        assert Undelivered(db, r.workload, now);
      }
    }
    RetiredLinked(db, d, ws);
    RetiredOutbox(db, d, ws);
  }

  // ----- stop and running reports

  /** Writing w's row and a stop command for it: w stops, or was terminal and stays as it is. */
  lemma EnqueueStopOutbox(db: Db, row: Workload, w: WorkloadId, c: CommandId, n: NodeId, now: Time)
    requires Outboxed(db) && w in db.workloads && c !in db.commands
    requires if row == db.workloads[w] then row.status.Terminal()
             else row.status.Stopping? && row.node == Some(n) && !db.workloads[w].status.Terminal()
    ensures Outboxed(Enqueue(db.(workloads := db.workloads[w := row]), c, n, w, StopCmd, now))
  {
    var e := Enqueue(db.(workloads := db.workloads[w := row]), c, n, w, StopCmd, now);
    forall x, v, k ensures IsCommand(e, x, v, k) <==> IsCommand(db, x, v, k) || (x == c && v == w && k == StopCmd) {}
    forall x, m ensures Standing(e, x, m) <==> Standing(db, x, m) || (x == c && m == n) {}
    assert IsCommand(e, c, w, StopCmd) && Standing(e, c, n);
    forall x | x in e.commands ensures RowSound(e, x) {
      if x != c { assert RowSound(db, x); }
    }
    forall v | v in e.workloads && e.workloads[v].status.Pending? && e.workloads[v].node.Some?
      ensures exists x :: IsCommand(e, x, v, LaunchCmd) && Standing(e, x, e.workloads[v].node.value)
    {
      var x :| IsCommand(db, x, v, LaunchCmd) && Standing(db, x, db.workloads[v].node.value);
      assert IsCommand(e, x, v, LaunchCmd);
    }
    forall v | v in e.workloads && e.workloads[v].status.Stopping? && e.workloads[v].node.Some?
      ensures exists x :: IsCommand(e, x, v, StopCmd) && Standing(e, x, e.workloads[v].node.value)
    {
      if v != w {
        var x :| IsCommand(db, x, v, StopCmd) && Standing(db, x, db.workloads[v].node.value);
        assert IsCommand(e, x, v, StopCmd);
      }
    }
  }

  /** A row written in place: same node and count, still active exactly if it was, not queued. */
  lemma RowWritten(db: Db, w: WorkloadId, row: Workload)
    requires Linked(db) && Booked(db) && Stamped(db) && w in db.workloads && !db.workloads[w].status.Queued?
    requires row.node == db.workloads[w].node && row.count == db.workloads[w].count
    requires row.status.Active() == db.workloads[w].status.Active() && !row.status.Queued?
    requires row.stoppedAt == db.workloads[w].stoppedAt && row.status.Terminal() == db.workloads[w].status.Terminal()
    requires StampedRow(row)
    ensures var d := db.(workloads := db.workloads[w := row]); Linked(d) && Booked(d) && Stamped(d)
  {
    var d := db.(workloads := db.workloads[w := row]);
    FrameBooks(db, d);
  }

  /** A new command for a workload that is not queued breaks no book. */
  lemma CommandAdded(db: Db, c: CommandId, n: NodeId, w: WorkloadId, kind: CommandKind, now: Time)
    requires Linked(db) && Booked(db) && Stamped(db)
    requires w in db.workloads && !db.workloads[w].status.Queued? && n in db.nodes
    ensures var d := Enqueue(db, c, n, w, kind, now); Linked(d) && Booked(d) && Stamped(d)
  {
    FrameBooks(db, Enqueue(db, c, n, w, kind, now));
  }

  lemma StopSound(db: Db, w: WorkloadId, reason: StopReason, c: CommandId, now: Time)
    requires Sound(db) && c !in db.commands && Stop(db, w, reason, c, now).Ok?
    ensures Sound(Stop(db, w, reason, c, now).value)
  {
    assert ActiveIn(db, w);
    var row := db.workloads[w].(status := Stopping, stopReason := Some(reason), stoppingAt := Some(now));
    var n := row.node.value;
    RowWritten(db, w, row);
    CommandAdded(db.(workloads := db.workloads[w := row]), c, n, w, StopCmd, now);
    EnqueueStopOutbox(db, row, w, c, n, now);
  }

  lemma BecameRunningOutbox(db: Db, w: WorkloadId, row: Workload)
    requires Outboxed(db) && AcceptsRunning(db, w) && row.status.Running?
    ensures Outboxed(db.(workloads := db.workloads[w := row]))
  {
    var d := db.(workloads := db.workloads[w := row]);
    forall x, v, k ensures IsCommand(d, x, v, k) == IsCommand(db, x, v, k) {}
    forall x, m ensures Standing(d, x, m) == Standing(db, x, m) {}
    forall x | x in d.commands ensures RowSound(d, x) { assert RowSound(db, x); }
  }

  lemma ReportRunningSound(db: Db, n: NodeId, w: WorkloadId, seen: WorkloadStatus, c: CommandId, now: Time)
    requires Sound(db) && c !in db.commands
    requires w in db.workloads && !db.workloads[w].status.Queued?
    requires seen.Terminal() ==> TerminalIn(db, w)
    ensures Sound(ReportRunning(db, n, w, seen, c, now))
  {
    var was := db.workloads[w];
    if AcceptsRunning(db, w) {
      var row := was.(status := Running, startedAt := Some(was.startedAt.GetOr(now)));
      RowWritten(db, w, row);
      BecameRunningOutbox(db, w, row);
    } else if seen.Terminal() && n in db.nodes {
      EnqueueStopOutbox(db, was, w, c, n, now);
      assert db.(workloads := db.workloads[w := was]) == db;
      CommandAdded(db, c, n, w, StopCmd, now);
    }
  }

  // ----- node removal

  lemma RemoveNodeHolds(db: Db, org: OrgId, n: NodeId, force: bool, now: Time)
    requires RemoveNode(db, org, n, force, now).Ok?
    ensures var d := RemoveNode(db, org, n, force, now).value;
            (forall v, g :: Holds(d, v, g) <==> Holds(db, v, g) && !(g in db.gpus && db.gpus[g].node == n)) &&
            (forall w | w in db.workloads && db.workloads[w].node != Some(n) :: d.workloads[w] == db.workloads[w]) &&
            (forall w | w in db.workloads && db.workloads[w].node == Some(n) ::
               d.workloads[w].node.None? && !d.workloads[w].status.Active() &&
               (db.workloads[w].status.Active() ==>
                 d.workloads[w].status.Failed? && d.workloads[w].stoppedAt == Some(now)) &&
               (!db.workloads[w].status.Active() ==> d.workloads[w] == db.workloads[w].(node := None)))
  {
    var d := RemoveNode(db, org, n, force, now).value;
    var f := FailAll(db, ActiveOn(db, n), ByAdmin, now);
    forall w | w in db.workloads && db.workloads[w].node == Some(n) ensures !d.workloads[w].status.Active() {
      assert w in ActiveOn(db, n) <==> db.workloads[w].status.Active();
      assert f.workloads[w].node == Some(n);
    }
  }

  lemma RemoveNodeBooked(db: Db, org: OrgId, n: NodeId, force: bool, now: Time)
    requires Linked(db) && Booked(db) && RemoveNode(db, org, n, force, now).Ok?
    ensures Booked(RemoveNode(db, org, n, force, now).value)
  {
    var d := RemoveNode(db, org, n, force, now).value;
    RemoveNodeHolds(db, org, n, force, now);
    forall v, g | Holds(d, v, g)
      ensures ActiveIn(d, v) && g in d.gpus && d.gpus[g].status.InUse? && d.workloads[v].node == Some(d.gpus[g].node)
    {
      assert Holds(db, v, g);
    }
    forall g | g in d.gpus && d.gpus[g].status.InUse? ensures exists v :: Holds(d, v, g) {
      assert db.gpus[g].status.InUse?;
      var v :| Holds(db, v, g);
      assert Holds(d, v, g);
    }
    forall v | ActiveIn(d, v) ensures d.workloads[v].node.Some? && |HeldBy(d, v)| == d.workloads[v].count {
      assert v in db.workloads && db.workloads[v].node != Some(n);
      assert HeldBy(d, v) == HeldBy(db, v) by {
        forall g ensures g in HeldBy(d, v) <==> g in HeldBy(db, v) {
          if Holds(db, v, g) { assert db.workloads[v].node == Some(db.gpus[g].node); }
          assert Holds(d, v, g) <==> Holds(db, v, g) && !(g in db.gpus && db.gpus[g].node == n);
        }
      }
    }
  }

  lemma RemoveNodeOutboxed(db: Db, org: OrgId, n: NodeId, force: bool, now: Time)
    requires Linked(db) && Outboxed(db) && RemoveNode(db, org, n, force, now).Ok?
    ensures Outboxed(RemoveNode(db, org, n, force, now).value)
  {
    var d := RemoveNode(db, org, n, force, now).value;
    RemoveNodeHolds(db, org, n, force, now);
    forall x, v, k ensures IsCommand(d, x, v, k) <==> IsCommand(db, x, v, k) && db.commands[x].node != n {}
    forall x, m ensures Standing(d, x, m) <==> Standing(db, x, m) && m != n {}
    forall x | x in d.commands ensures RowSound(d, x) { assert RowSound(db, x); }
    forall v | v in d.workloads && d.workloads[v].status.Pending? && d.workloads[v].node.Some?
      ensures exists x :: IsCommand(d, x, v, LaunchCmd) && Standing(d, x, d.workloads[v].node.value)
    {
      assert v in db.workloads && db.workloads[v].node != Some(n);
      var x :| IsCommand(db, x, v, LaunchCmd) && Standing(db, x, db.workloads[v].node.value);
      assert IsCommand(d, x, v, LaunchCmd);
    }
    forall v | v in d.workloads && d.workloads[v].status.Stopping? && d.workloads[v].node.Some?
      ensures exists x :: IsCommand(d, x, v, StopCmd) && Standing(d, x, d.workloads[v].node.value)
    {
      assert v in db.workloads && db.workloads[v].node != Some(n);
      var x :| IsCommand(db, x, v, StopCmd) && Standing(db, x, db.workloads[v].node.value);
      assert IsCommand(d, x, v, StopCmd);
    }
  }

  lemma RemoveNodeLinked(db: Db, org: OrgId, n: NodeId, force: bool, now: Time)
    requires Linked(db) && RemoveNode(db, org, n, force, now).Ok?
    ensures Linked(RemoveNode(db, org, n, force, now).value)
  {
    var d := RemoveNode(db, org, n, force, now).value;
    RemoveNodeHolds(db, org, n, force, now);
    forall w | w in d.workloads
      ensures d.workloads[w].node.Some? ==> d.workloads[w].node.value in d.nodes
      ensures d.workloads[w].status.Queued? ==> d.workloads[w].node.None?
    {
      assert w in db.workloads;
    }
    forall k | k in d.attachments
      ensures k.0 in d.workloads && !d.workloads[k.0].status.Queued? && k.1 in d.gpus
      ensures d.workloads[k.0].node == Some(d.gpus[k.1].node)
    {
      assert k in db.attachments && d.gpus[k.1] == db.gpus[k.1];
    }
    forall c | c in d.commands
      ensures d.commands[c].node in d.nodes && d.commands[c].workload in d.workloads &&
              !d.workloads[d.commands[c].workload].status.Queued?
    {
      assert c in db.commands;
    }
  }

  lemma RemoveNodeSound(db: Db, org: OrgId, n: NodeId, force: bool, now: Time)
    requires Sound(db) && RemoveNode(db, org, n, force, now).Ok?
    ensures Sound(RemoveNode(db, org, n, force, now).value)
  {
    RemoveNodeHolds(db, org, n, force, now);
    RemoveNodeLinked(db, org, n, force, now);
    RemoveNodeBooked(db, org, n, force, now);
    RemoveNodeOutboxed(db, org, n, force, now);
  }

  // ----- nodes, inventory, delivery

  lemma SetNodeSound(db: Db, n: NodeId, org: OrgId, status: NodeStatus, lastSeen: Option<Time>)
    requires Sound(db)
    ensures Sound(SetNode(db, n, org, status, lastSeen))
  {
    var d := SetNode(db, n, org, status, lastSeen);
    FrameBooks(db, d);
    FrameOutbox(db, d);
  }

  lemma AddGpuSound(db: Db, g: GpuId, n: NodeId, index: nat, model: string)
    requires Sound(db) && AddGpu(db, g, n, index, model).Ok?
    ensures Sound(AddGpu(db, g, n, index, model).value)
  {
    var d := AddGpu(db, g, n, index, model).value;
    forall v, h ensures Holds(d, v, h) == Holds(db, v, h) {}
    forall v: WorkloadId ensures HeldBy(d, v) == HeldBy(db, v) {
      forall h: GpuId ensures h in HeldBy(d, v) <==> h in HeldBy(db, v) {
        if Holds(db, v, h) { assert (v, h) in db.attachments && h in db.gpus; }
      }
    }
    assert InUseHeld(d) by {
      forall h | h in d.gpus && d.gpus[h].status.InUse? ensures exists v :: Holds(d, v, h) {
        var v :| Holds(db, v, h);
        assert Holds(d, v, h);
      }
    }
    FrameOutbox(db, d);
  }

  /** Delivery, acknowledgement and reconnects rewrite command rows only, and never make one
      expired or superseded. */
  lemma CommandsOnlySound(db: Db, d: Db)
    requires Sound(db) && RowsKept(db, d) && d == db.(commands := d.commands)
    ensures Sound(d)
  {
    FrameBooks(db, d);
    FrameOutbox(db, d);
  }
}
