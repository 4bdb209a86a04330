/** The workloads service over its tables, statement by statement.  Each method's whole effect
    is the transition it implements. */
module Service {
  import opened Tables
  import opened Transitions
  import opened FirstFit
  import opened Promotion
  import opened Books
  import opened Effects
  import Like
  import Runs

  datatype Claimed = Claimed(node: NodeId, gpus: seq<GpuId>)

  class ControlPlane {
    var nodes: map<NodeId, Node>
    var gpus: map<GpuId, Gpu>
    var workloads: map<WorkloadId, Workload>
    var attachments: Attachments
    var commands: map<CommandId, Command>

    function Tables(): Db reads this { Db(nodes, gpus, workloads, attachments, commands) }

    constructor ()
      ensures Tables() == EMPTY
    {
      nodes, gpus, workloads, attachments, commands := map[], map[], map[], map[], map[];
    }

    /** Rolls a transaction back. */
    method Restore(db: Db)
      modifies this
      ensures Tables() == db
    {
      nodes, gpus, workloads, attachments, commands := db.nodes, db.gpus, db.workloads, db.attachments, db.commands;
    }

    // ----- placement

    /** The candidate scan. */
    method Scan(org: OrgId, gpuType: string) returns (rows: seq<GpuId>)
      ensures IsScan(Tables(), org, gpuType, rows)
    {
      var db := Tables();
      var all := set g | g in gpus && Candidate(db, org, gpuType, g);
      var rest := all;
      rows := [];
      while rest != {}
        invariant rest <= all && (forall g :: g in rows <==> g in all && g !in rest)
        invariant Ordered(db, rows)
        invariant forall g, h | g in rows && h in rest :: RowBefore(db, g, h)
        decreases rest
      {
        FirstRow(db, rest);
        var g :| g in rest && forall h | h in rest :: RowBefore(db, g, h);
        rows := rows + [g];
        rest := rest - {g};
      }
    }

    /** Groups scanned rows by node, nodes in order of first sight. */
    method GroupRows(rows: seq<GpuId>) returns (byNode: map<NodeId, seq<GpuId>>, nodeOrder: seq<NodeId>)
      requires Ordered(Tables(), rows) && forall g | g in rows :: g in gpus
      ensures Grouped(Tables(), rows, byNode, nodeOrder)
    {
      ghost var db := Tables();
      byNode, nodeOrder := map[], [];
      for i := 0 to |rows|
        invariant Grouped(db, rows[..i], byNode, nodeOrder)
        invariant forall n, j | n in nodeOrder && i <= j < |rows| :: n <= db.gpus[rows[j]].node
      {
        var n := gpus[rows[i]].node;
        GroupOne(db, rows, i, byNode, nodeOrder);
        if n !in byNode {
          nodeOrder := nodeOrder + [n];
          byNode := byNode[n := []];
        }
        byNode := byNode[n := byNode[n] + [rows[i]]];
      }
      assert rows[..|rows|] == rows;
    }

    /** First fit: the lowest node with enough free matching GPUs, and its lowest-numbered ones;
        nothing only if no node has enough. */
    method PlaceAndAttach(org: OrgId, gpuType: string, count: nat, busy: set<GpuId>) returns (r: Option<Claimed>)
      ensures r.None? <==> !Fits(Tables(), org, gpuType, count, busy)
      ensures r.Some? ==> IsFirstFit(Tables(), org, gpuType, count, r.value, busy)
      ensures r.Some? ==> |r.value.gpus| == count
      ensures r.Some? ==> forall i, j :: 0 <= i < j < count ==> r.value.gpus[i] != r.value.gpus[j]
      ensures r.Some? ==> forall g | g in r.value.gpus ::
        g in gpus && gpus[g].org == org && gpus[g].status == Idle && g !in busy &&
        gpus[g].node == r.value.node && r.value.node in nodes && nodes[r.value.node].status == Online
      ensures r.Some? && Like.IsPlain(gpuType) ==>
        forall g | g in r.value.gpus :: g in Takeable(Tables(), org, gpuType, r.value.node, busy)
      ensures r.Some? && Like.IsPlain(gpuType) ==>
        forall g, h | g in r.value.gpus && h in Takeable(Tables(), org, gpuType, r.value.node, busy) &&
                      h !in r.value.gpus ::
          g in gpus && gpus[g].index <= gpus[h].index
      ensures count > 0 && Like.IsPlain(gpuType) ==>
        forall n | n in nodes && (r.Some? ==> n < r.value.node) :: |Takeable(Tables(), org, gpuType, n, busy)| < count
    {
      var db := Tables();
      var rows := Scan(org, gpuType);
      assert forall g | g in rows :: g in gpus by { assert forall g | g in rows :: Candidate(db, org, gpuType, g); }
      var byNode, nodeOrder := GroupRows(rows);
      for k := 0 to |nodeOrder|
        invariant forall j | 0 <= j < k :: !FitsOn(db, org, gpuType, count, nodeOrder[j], busy)
      {
        var n := nodeOrder[k];
        NodeDecides(db, org, gpuType, rows, byNode, nodeOrder, n, count, busy);
        if |byNode[n]| < count { continue; }
        var taken := Claim(db, byNode[n], busy, count);
        if |taken| == count {
          ClaimIsFirstFit(db, org, gpuType, rows, byNode, nodeOrder, k, count, busy);
          FirstFitFits(db, org, gpuType, count, Claimed(n, taken), busy);
          FirstFitTakes(db, org, gpuType, count, Claimed(n, taken), busy);
          return Some(Claimed(n, taken));
        }
      }
      forall m | m in nodes
        ensures !FitsOn(db, org, gpuType, count, m, busy)
        ensures count > 0 && Like.IsPlain(gpuType) ==> |Takeable(db, org, gpuType, m, busy)| < count
      {
        NotFitting(db, org, gpuType, rows, byNode, nodeOrder, |nodeOrder|, m, count, busy);
        if count > 0 && Like.IsPlain(gpuType) { FitsWhenTakeable(db, org, gpuType, count, m, busy); }
      }
      return None;
    }

    /** Materializes a claim: the attachment rows one by one, then the in_use flip with its row count. */
    method AttachRows(w: WorkloadId, gs: seq<GpuId>) returns (failure: Option<Error>)
      requires forall i, j :: 0 <= i < j < |gs| ==> gs[i] != gs[j]
      modifies this
      ensures failure.None? ==> Attach(old(Tables()), w, Elements(gs)) == Ok(Tables())
      ensures failure.Some? ==> Attach(old(Tables()), w, Elements(gs)) == Err(failure.value)
    {
      ghost var was := Tables();
      failure := InsertRows(w, gs);
      if failure.Some? { return; }
      var hit := set g | g in gs && g in gpus && gpus[g].status.Idle?;
      AttachOutcome(was, w, gs, hit);
      if |hit| != |gs| { return Some(ClaimRaced); }
      gpus := map g | g in gpus :: if g in hit then gpus[g].(status := InUse) else gpus[g];
    }

    method InsertRows(w: WorkloadId, gs: seq<GpuId>) returns (failure: Option<Error>)
      requires forall i, j :: 0 <= i < j < |gs| ==> gs[i] != gs[j]
      modifies `attachments
      ensures failure.None? ==> Tables() == Inserted(old(Tables()), w, gs)
      ensures failure.None? ==> forall j | 0 <= j < |gs| :: !Taken(old(Tables()), w, gs[j])
      ensures failure.Some? ==> Attach(old(Tables()), w, Elements(gs)) == Err(failure.value)
    {
      ghost var was := Tables();
      for i := 0 to |gs|
        invariant Tables() == Inserted(was, w, gs[..i])
        invariant forall j | 0 <= j < i :: !Taken(was, w, gs[j])
      {
        var g := gs[i];
        InsertOne(was, w, gs, i);
        InsertedNext(was, w, gs, i);
        if Taken(Tables(), w, g) { return Some(UniqueViolation); }
        assert !Taken(was, w, gs[i]);
        attachments := attachments[(w, g) := None];
      }
      assert gs[..|gs|] == gs;
      return None;
    }

    // ----- launch, queue, stop

    /** Launch: validated, admitted, then placed or queued; `busy` are rows other transactions lock. */
    method Launch(w: WorkloadId, org: OrgId, gpuType: string, gpuCount: int, admitted: bool,
                  c: CommandId, now: Time, busy: set<GpuId>) returns (r: Result<WorkloadStatus>)
      requires Sound(Tables()) && w !in workloads && c !in commands
      modifies this
      ensures Sound(Tables())
      ensures gpuCount > 16 ==> r == Err(InvalidRequest)
      ensures gpuCount <= 16 && !admitted ==> r == Err(InsufficientCredit)
      ensures r.Err? ==> (gpuCount > 16 || !admitted) && Tables() == old(Tables())
      ensures r.Ok? ==>
        var count: nat, kind := if gpuCount <= 0 then 1 else gpuCount, if gpuType == "" then "any" else gpuType;
        if Fits(old(Tables()), org, kind, count, busy) then
          r.value == Pending && exists f :: Launched(old(Tables()), Tables(), w, org, kind, count, f, c, now, busy)
        else
          r.value == Queued &&
          Tables() == old(Tables()).(workloads := old(workloads)[w := Workload(org, kind, count, Queued, None, now,
                                                                               Some(now), None, None, None, None)])
    {
      if gpuCount > 16 { return Err(InvalidRequest); }
      var count: nat := if gpuCount <= 0 then 1 else gpuCount;
      if !admitted { return Err(InsufficientCredit); }
      var gpuType := if gpuType == "" then "any" else gpuType;
      var was := Tables();
      var claimed := PlaceAndAttach(org, gpuType, count, busy);
      if claimed.None? {
        workloads := workloads[w := NewWorkload(org, gpuType, count, Queued, None, now, Some(now))];
        QueuedSound(was, w, org, gpuType, count, now);
        return Ok(Queued);
      }
      ghost var p := PlacementOf(claimed.value);
      FirstFitFits(was, org, gpuType, count, claimed.value, busy);
      ClaimableGood(was, org, gpuType, count, p, busy);
      LaunchPlacedSound(was, w, org, gpuType, count, p, c, now);
      LaunchWrites(was, w, org, gpuType, count, p, c, now);
      var failure := CommitLaunch(w, org, gpuType, count, claimed.value, c, now);
      assert Launched(was, Tables(), w, org, gpuType, count, claimed.value, c, now, busy);
      return Ok(Pending);
    }

    /** The writes of a placed launch, in one transaction. */
    method CommitLaunch(w: WorkloadId, org: OrgId, gpuType: string, count: nat, claimed: Claimed, c: CommandId,
                        now: Time)
      returns (failure: Option<Error>)
      requires forall i, j :: 0 <= i < j < |claimed.gpus| ==> claimed.gpus[i] != claimed.gpus[j]
      modifies this
      ensures var r := LaunchPlaced(old(Tables()), w, org, gpuType, count,
                                    PlacementOf(claimed), c, now);
              if failure.None? then r == Ok(Tables()) else r == Err(failure.value) && Tables() == old(Tables())
    {
      var was := Tables();
      workloads := workloads[w := NewWorkload(org, gpuType, count, Pending, Some(claimed.node), now, None)];
      failure := AttachRows(w, claimed.gpus);
      if failure.Some? {
        Restore(was);
        return;
      }
      commands := commands[c := NewCommand(claimed.node, w, LaunchCmd, now)];
    }

    /** The writes of a promotion, in one transaction. */
    method CommitPromotion(w: WorkloadId, claimed: Claimed, c: CommandId, now: Time) returns (failure: Option<Error>)
      requires forall i, j :: 0 <= i < j < |claimed.gpus| ==> claimed.gpus[i] != claimed.gpus[j]
      modifies this
      ensures var r := Promote(old(Tables()), w, PlacementOf(claimed), c, now);
              if failure.None? then r == Ok(Tables()) else r == Err(failure.value) && Tables() == old(Tables())
    {
      var was := Tables();
      if w !in workloads || workloads[w].status != Queued { return Some(NotQueued); }
      workloads := workloads[w := workloads[w].(status := Pending, node := Some(claimed.node))];
      failure := AttachRows(w, claimed.gpus);
      if failure.Some? {
        Restore(was);
        return;
      }
      commands := commands[c := NewCommand(claimed.node, w, LaunchCmd, now)];
    }

    method CancelQueued(w: WorkloadId, now: Time) returns (r: Option<Error>)
      modifies this
      ensures r.None? ==> Transitions.CancelQueued(old(Tables()), w, now) == Ok(Tables())
      ensures r.Some? ==> Transitions.CancelQueued(old(Tables()), w, now) == Err(r.value) && Tables() == old(Tables())
      ensures r.None? <==> w in old(workloads) && old(workloads[w]).status == Queued
      ensures r.None? ==>
        Tables() == old(Tables()).(workloads := old(workloads)[w := old(workloads[w]).(
                                     status := Stopped, stoppedAt := Some(now), stopReason := Some(ByUser))])
    {
      if w !in workloads || workloads[w].status != Queued { return Some(NotQueued); }
      workloads := workloads[w := workloads[w].(status := Stopped, stoppedAt := Some(now), stopReason := Some(ByUser))];
      return None;
    }

    method Stop(w: WorkloadId, reason: StopReason, c: CommandId, now: Time) returns (r: Option<Error>)
      modifies this
      ensures r.None? ==> Transitions.Stop(old(Tables()), w, reason, c, now) == Ok(Tables())
      ensures r.Some? ==>
              Transitions.Stop(old(Tables()), w, reason, c, now) == Err(r.value) && Tables() == old(Tables())
      ensures r.None? <==> w in old(workloads) && old(workloads[w]).status in {Pending, Running}
      ensures r.None? ==> workloads == old(workloads)[w := old(workloads[w]).(
                            status := Stopping, stopReason := Some(reason), stoppingAt := Some(now))]
      ensures r.None? && workloads[w].node.Some? ==>
        commands == old(commands)[c := Command(workloads[w].node.value, w, StopCmd, Unsent, 0, now, None, now)]
    {
      if w !in workloads || !(workloads[w].status.Pending? || workloads[w].status.Running?) { return Some(NotFound); }
      workloads := workloads[w := workloads[w].(status := Stopping, stopReason := Some(reason),
        stoppingAt := Some(now))];
      if workloads[w].node.Some? {
        commands := commands[c := NewCommand(workloads[w].node.value, w, StopCmd, now)];
      }
      return None;
    }

    // ----- promotion

    /** The queue, oldest first. */
    method ListQueue(org: OrgId) returns (cands: seq<WorkloadId>)
      ensures IsQueue(Tables(), org, cands)
    {
      var db := Tables();
      var all := set w | w in workloads && QueuedIn(db, org, w);
      var rest := all;
      cands := [];
      while rest != {}
        invariant rest <= all && (forall w :: w in cands <==> w in all && w !in rest)
        invariant forall i, j :: 0 <= i < j < |cands| ==> cands[i] != cands[j] && QueuedBefore(db, cands[i], cands[j])
        invariant forall v, w | v in cands && w in rest :: QueuedBefore(db, v, w)
        decreases rest
      {
        FirstQueued(db, rest);
        var v :| v in rest && Foremost(db, v, rest);
        cands := cands + [v];
        rest := rest - {v};
      }
    }

    /** One candidate: placed, moved from queued to pending if it still is, attached, commanded. */
    method PromoteOne(org: OrgId, w: WorkloadId, gpuType: string, count: nat, c: CommandId, now: Time, busy: set<GpuId>)
      returns (promoted: bool)
      requires Sound(Tables()) && c !in commands
      requires w in workloads && workloads[w].count == count && workloads[w].gpuType == gpuType &&
               workloads[w].org == org
      modifies this
      ensures Sound(Tables())
      ensures promoted <==> Fits(old(Tables()), org, gpuType, count, busy) && old(workloads[w]).status.Queued?
      ensures !promoted ==> Tables() == old(Tables())
      ensures promoted ==> exists f :: Promoted(old(Tables()), Tables(), w, f, c, now, busy)
    {
      var was := Tables();
      var claimed := PlaceAndAttach(org, gpuType, count, busy);
      if claimed.None? { return false; }
      ghost var p := PlacementOf(claimed.value);
      FirstFitFits(was, org, gpuType, count, claimed.value, busy);
      ClaimableGood(was, org, gpuType, count, p, busy);
      if workloads[w].status.Queued? {
        PromoteSound(was, w, p, c, now);
        PromoteWrites(was, w, p, c, now);
      }
      var failure := CommitPromotion(w, claimed.value, c, now);
      assert failure.None? ==> Promoted(was, Tables(), w, claimed.value, c, now, busy);
      return failure.None?;
    }

    /** One pass over the queue, stopping at the first refused admission.  Run alone and never
        refused it is maximal: nothing left in the queue fits. */
    method PromoteQueued(org: OrgId, admit: WorkloadId -> bool, ids: WorkloadId -> CommandId, now: Time)
      returns (promoted: nat)
      requires Sound(Tables()) && UnusedIds(Tables(), org, ids)
      modifies this
      ensures Sound(Tables())
      ensures exists states, cands, placed ::
        PassDone(old(Tables()), Tables(), org, admit, states, cands, placed) && promoted == Count(placed)
      ensures (forall w :: admit(w)) ==> forall w :: QueuedIn(Tables(), org, w) ==> !FitsNow(Tables(), w)
      ensures InTurn(old(Tables()), Tables(), org)
      ensures PassFrame(old(Tables()), Tables(), org, ids)
      ensures promoted == |Left(old(Tables()), Tables(), org)|
    {
      var cands := ListQueue(org);
      ghost var before, states, placed := Tables(), [Tables()], [];
      promoted := 0;
      var k := 0;
      while k < |cands| && admit(cands[k])
        invariant |placed| == k <= |cands| && promoted == Count(placed) && Sound(Tables())
        invariant PassSoFar(before, Tables(), org, admit, ids, states, cands, placed)
      {
        var ok := PromoteCandidate(before, org, admit, ids, states, cands, placed, k, now);
        states, placed := states + [Tables()], placed + [ok];
        if ok { promoted := promoted + 1; }
        k := k + 1;
      }
      PassEnd(before, Tables(), org, admit, ids, states, cands, placed);
    }

    /** The k-th candidate's turn. */
    method PromoteCandidate(ghost before: Db, org: OrgId, ghost admit: WorkloadId -> bool, ids: WorkloadId -> CommandId,
                            ghost states: seq<Db>, cands: seq<WorkloadId>, ghost placed: seq<bool>, k: nat, now: Time)
      returns (ok: bool)
      requires Sound(Tables()) && PassSoFar(before, Tables(), org, admit, ids, states, cands, placed)
      requires k == |placed| < |cands| && admit(cands[k])
      modifies this
      ensures Sound(Tables())
      ensures PassSoFar(before, Tables(), org, admit, ids, states + [Tables()], cands, placed + [ok])
      ensures Count(placed + [ok]) == Count(placed) + if ok then 1 else 0
    {
      var w := cands[k];
      ghost var a := Tables();
      NextCandidate(before, a, org, admit, ids, states, cands, placed);
      ok := PromoteOne(org, w, workloads[w].gpuType, workloads[w].count, ids(w), now, {});
      PassStep(before, a, Tables(), org, admit, ids, states, cands, placed, ok, now);
    }

    /** Every organization with queued workloads, in any order.  Never refused, it leaves nothing
        queued that fits; the total is how many workloads left the queue. */
    method PromoteAllQueued(admit: WorkloadId -> bool, ids: WorkloadId -> CommandId, now: Time) returns (total: nat)
      requires Sound(Tables()) && forall o :: UnusedIds(Tables(), o, ids)
      modifies this
      ensures Sound(Tables())
      ensures (forall w :: admit(w)) ==> forall o, w :: QueuedIn(Tables(), o, w) ==> !FitsNow(Tables(), w)
      ensures total == |LeftAny(old(Tables()), Tables())|
    {
      ghost var before := Tables();
      var todo := set w | w in workloads && workloads[w].status.Queued? :: workloads[w].org;
      ghost var done: set<OrgId> := {};
      total := 0;
      AllStart(before, todo, admit, ids);
      while todo != {}
        invariant Sound(Tables()) && AllSoFar(before, Tables(), todo, done, admit, ids, total)
        decreases todo
      {
        var org :| org in todo;
        var n := PromoteNext(before, todo, done, admit, ids, now, total, org);
        total, todo, done := total + n, todo - {org}, done + {org};
      }
      AllEnd(before, Tables(), done, admit, ids, total);
    }

    /** One organization of the loop. */
    method PromoteNext(ghost before: Db, ghost todo: set<OrgId>, ghost done: set<OrgId>, admit: WorkloadId -> bool,
                       ids: WorkloadId -> CommandId, now: Time, ghost total: nat, org: OrgId) returns (n: nat)
      requires Sound(Tables()) && AllSoFar(before, Tables(), todo, done, admit, ids, total) && org in todo
      modifies this
      ensures Sound(Tables()) && AllSoFar(before, Tables(), todo - {org}, done + {org}, admit, ids, total + n)
    {
      ghost var mid := Tables();
      n := PromoteQueued(org, admit, ids, now);
      AllStep(before, mid, Tables(), todo, done, admit, ids, total, org, n);
    }

    // ----- agent reports

    /** UpdateStatus without interruption: node check, reads, guarded write. */
    method UpdateStatus(n: NodeId, w: WorkloadId, state: WorkloadStatus, c: CommandId, now: Time)
      returns (r: Option<Error>)
      modifies this
      ensures !OnNode(old(Tables()), n, w) ==> r == Some(NotFound) && Tables() == old(Tables())
      ensures OnNode(old(Tables()), n, w) ==> r.None?
      ensures OnNode(old(Tables()), n, w) ==>
        Tables() == Runs.ApplyReport(old(Tables()),
                                     Runs.Loaded(n, w, state, old(workloads[w]).status, HeldBy(old(Tables()), w)),
                                     c, now)
      ensures w in old(workloads) && old(workloads[w]).node == Some(n) ==>
        r.None? && ReportWrites(old(Tables()), Tables(), n, w, state, c, now)
      ensures !(w in old(workloads) && old(workloads[w]).node == Some(n)) ==>
        r == Some(NotFound) && Tables() == old(Tables())
    {
      if w !in workloads || workloads[w].node != Some(n) { return Some(NotFound); }
      AppliedWrites(Tables(), n, w, state, c, now);
      match state {
        case Running =>
          var seen := workloads[w].status;
          if seen.Pending? || seen.Running? {
            workloads := workloads[w := workloads[w].(status := Running,
              startedAt := Some(workloads[w].startedAt.GetOr(now)))];
          } else if seen.Terminal() && n in nodes {
            commands := commands[c := NewCommand(n, w, StopCmd, now)];
          }
        case Stopped => FinishWorkload(w, Stopped, now);
        case Failed => FinishWorkload(w, Failed, now);
        case _ => workloads := workloads[w := workloads[w].(status := state)];
      }
      return None;
    }

    /** The terminal branch: the GPUs read first are freed one by one once the guard let it through. */
    method FinishWorkload(w: WorkloadId, state: WorkloadStatus, now: Time)
      requires w in workloads
      modifies this
      ensures Tables() == ReportTerminal(old(Tables()), w, state, HeldBy(old(Tables()), w), now)
    {
      var held := HeldBy(Tables(), w);
      if workloads[w].status.Terminal() { return; }
      workloads := workloads[w := workloads[w].(status := state, stoppedAt := Some(now))];
      attachments := map k | k in attachments ::
                       if k.0 in {w} && attachments[k].None? then Some(now) else attachments[k];
      FreeEach(held);
    }

    method FreeEach(held: set<GpuId>)
      modifies `gpus
      ensures Tables() == FreeGpus(old(Tables()), held)
    {
      ghost var was := Tables();
      var todo := held;
      while todo != {}
        invariant todo <= held && Tables() == FreeGpus(was, held - todo)
        decreases todo
      {
        var g :| g in todo;
        if g in gpus { gpus := gpus[g := gpus[g].(status := Idle)]; }
        assert held - (todo - {g}) == (held - todo) + {g};
        todo := todo - {g};
      }
      assert held - todo == held;
    }

    // ----- the sweep

    /** UPDATE ... status='failed' and detach, one workload at a time. */
    method FailAndDetach(ws: set<WorkloadId>, now: Time)
      requires ws <= workloads.Keys
      modifies this
      ensures Tables() == FailDetach(old(Tables()), ws, now)
    {
      ghost var was := Tables();
      var todo := ws;
      FailNone(was, now);
      while todo != {}
        invariant todo <= ws && Tables() == Detach(FailAll(was, ws - todo, Failure, now), ws - todo, now)
        decreases todo
      {
        var w :| w in todo;
        FailOneMore(was, ws - todo, w, now);
        assert (ws - todo) + {w} == ws - (todo - {w});
        workloads := workloads[w := FailRow(workloads[w], Failure, now)];
        attachments := map k | k in attachments ::
                         if k.0 == w && attachments[k].None? then Some(now) else attachments[k];
        todo := todo - {w};
      }
      assert ws - todo == ws;
    }

    /** Marks what missed its deadline, and returns the workloads whose launch that was. */
    method ExpireOverdue(now: Time) returns (late: set<WorkloadId>)
      modifies `commands
      ensures Tables() == old(Tables()).(commands := ExpireRows(old(commands), now))
      ensures late == LateLaunches(old(Tables()), now)
      ensures commands.Keys == old(commands).Keys
      ensures forall c | c in commands ::
        commands[c] == if Missed(old(commands[c]), now) then old(commands[c]).(status := Expired) else old(commands[c])
      ensures late == set w | w in workloads && workloads[w].status == Pending &&
                              exists c | c in old(commands) :: MissedLaunch(old(commands[c]), w, now)
    {
      var overdue := set c | c in commands && Overdue(commands[c], now);
      late := set c | c in overdue && commands[c].kind.LaunchCmd? && commands[c].workload in workloads &&
                      workloads[commands[c].workload].status.Pending? :: commands[c].workload;
      commands := map c | c in commands :: if c in overdue then commands[c].(status := Expired) else commands[c];
    }

    method SupersedeForTerminalWorkloads()
      modifies `commands
      ensures Tables() == old(Tables()).(commands := SupersedeRows(old(Tables())))
      ensures commands.Keys == old(commands).Keys
      ensures forall c | c in commands ::
        var row := old(commands[c]);
        commands[c] == if row.status in {Unsent, Sent} && row.workload in workloads &&
                          workloads[row.workload].status in {Stopped, Failed} then row.(status := Superseded) else row
    {
      commands := map c | c in commands ::
                    if commands[c].status.Open() && TerminalIn(Tables(), commands[c].workload)
                    then commands[c].(status := Superseded) else commands[c];
    }

    method FreeUnheldGpus()
      modifies `gpus
      ensures Tables() == FreeUnheld(old(Tables()))
    {
      gpus := map g | g in gpus ::
                if gpus[g].status.InUse? && !HeldByActive(Tables(), g) then gpus[g].(status := Idle) else gpus[g];
    }

    /** The statements of the sweep, in order; together they are the one-piece sweep, and the
        count is that of the workloads it failed. */
    method SweepStuck(now: Time) returns (n: nat)
      modifies this
      ensures Tables() == Sweep(old(Tables()), now)
      ensures n == |Reclaimed(old(Tables()), now)| == |set w | w in old(workloads) && Lost(old(Tables()), w, now)|
      ensures LostFailed(old(Tables()), workloads, now)
      ensures forall w :: !Lost(Tables(), w, now)
      ensures forall c | c in commands :: !Missed(commands[c], now)
    {
      ghost var was := Tables();
      SweepAddsUp(was, now);
      var stuck := StuckIn(Tables(), now);
      FailAndDetach(stuck, now);
      FreeUnheldGpus();
      var late := ExpireOverdue(now);
      FailAndDetach(late, now);
      SupersedeForTerminalWorkloads();
      FreeUnheldGpus();
      n := |stuck| + |late|;
      NothingLostAfterSweep(was, now);
      SweepTold(was, now);
    }

    // ----- node removal

    method RemoveNode(org: OrgId, n: NodeId, force: bool, now: Time) returns (r: Result<nat>)
      modifies this
      ensures r.Ok? ==> Transitions.RemoveNode(old(Tables()), org, n, force, now) == Ok(Tables()) &&
                        r.value == |ActiveOn(old(Tables()), n)|
      ensures r.Err? ==>
              Transitions.RemoveNode(old(Tables()), org, n, force, now) == Err(r.error) && Tables() == old(Tables())
      ensures r == Err(NotFound) <==> !(n in old(nodes) && old(nodes[n]).org == org)
      ensures r == Err(NodeBusy) <==>
        n in old(nodes) && old(nodes[n]).org == org && !force && exists w :: BusyOn(old(Tables()), n, w)
      ensures r.Ok? ==> r.value == |set w | w in old(workloads) && BusyOn(old(Tables()), n, w)|
      ensures r.Ok? ==> NodeGoneFrom(old(Tables()), Tables(), n, now)
    {
      if n !in nodes || nodes[n].org != org { return Err(NotFound); }
      var busy := ActiveOn(Tables(), n);
      assert forall w :: BusyOn(Tables(), n, w) <==> w in busy;
      assert busy == set w | w in workloads && BusyOn(Tables(), n, w);
      assert |busy| > 0 <==> exists w :: w in busy;
      if |busy| > 0 && !force { return Err(NodeBusy); }
      ghost var was := Tables();
      if |busy| > 0 {
        workloads := FailAll(Tables(), busy, ByAdmin, now).workloads;
        attachments := map k | k in attachments ::
                         if k.1 in gpus && gpus[k.1].node == n && attachments[k].None?
                         then Some(now) else attachments[k];
      }
      RemovalAddsUp(was, Tables(), n, busy, now);
      Restore(DeleteNode(Tables(), n));
      RemoveWrites(was, org, n, force, now);
      return Ok(|busy|);
    }
  }

  lemma FailNone(db: Db, now: Time)
    ensures Detach(FailAll(db, {}, Failure, now), {}, now) == db
  {
    var d := Detach(FailAll(db, {}, Failure, now), {}, now);
    assert d.workloads == db.workloads && d.attachments == db.attachments;
  }

  lemma FailOneMore(db: Db, ws: set<WorkloadId>, w: WorkloadId, now: Time)
    requires w in db.workloads && w !in ws
    ensures var d, e := Detach(FailAll(db, ws, Failure, now), ws, now),
            Detach(FailAll(db, ws + {w}, Failure, now), ws + {w}, now);
            d.workloads.Keys == db.workloads.Keys &&
            e.workloads == d.workloads[w := FailRow(d.workloads[w], Failure, now)] &&
            e.attachments == (map k | k in d.attachments ::
                                if k.0 == w && d.attachments[k].None? then Some(now) else d.attachments[k]) &&
            e.nodes == d.nodes && e.gpus == d.gpus && e.commands == d.commands
  {
  }

  function StuckIn(db: Db, now: Time): set<WorkloadId> { set w | w in db.workloads && Stuck(db, w, now) }

  function FailDetach(db: Db, ws: set<WorkloadId>, now: Time): Db { Detach(FailAll(db, ws, Failure, now), ws, now) }

  function LateLaunches(db: Db, now: Time): set<WorkloadId> {
    set c | c in db.commands && Overdue(db.commands[c], now) && db.commands[c].kind.LaunchCmd? &&
            db.commands[c].workload in db.workloads && db.workloads[db.commands[c].workload].status.Pending?
          :: db.commands[c].workload
  }

  function ExpireRows(commands: Commands, now: Time): Commands {
    map c | c in commands :: if Overdue(commands[c], now) then commands[c].(status := Expired) else commands[c]
  }

  function SupersedeRows(db: Db): Commands {
    map c | c in db.commands ::
      if db.commands[c].status.Open() && TerminalIn(db, db.commands[c].workload)
      then db.commands[c].(status := Superseded) else db.commands[c]
  }

  /** The tables after the sweep's first two statements, and after its fourth. */
  function AfterStuck(db: Db, now: Time): Db { FreeUnheld(FailDetach(db, StuckIn(db, now), now)) }

  function AfterLate(db: Db, now: Time): Db {
    var a := AfterStuck(db, now);
    FailDetach(a.(commands := ExpireRows(a.commands, now)), LateLaunches(a, now), now)
  }

  /** The workloads failed for an overdue launch are the undelivered ones that were not stuck. */
  lemma LateAreUndelivered(db: Db, now: Time)
    ensures var stuck, late := StuckIn(db, now), LateLaunches(AfterStuck(db, now), now);
            late <= db.workloads.Keys && late !! stuck && stuck + late == Reclaimed(db, now)
  {
    var stuck, a := StuckIn(db, now), AfterStuck(db, now);
    var late := LateLaunches(a, now);
    forall w | w in Reclaimed(db, now) && w !in stuck ensures w in late {
      var c :| c in db.commands && db.commands[c].workload == w && db.commands[c].kind.LaunchCmd? &&
        Overdue(db.commands[c], now);
      assert a.commands[c] == db.commands[c] && a.workloads[w] == db.workloads[w];
    }
    forall w | w in late ensures w in db.workloads && w !in stuck && Undelivered(db, w, now) {
      var c :| c in a.commands && Overdue(a.commands[c], now) && a.commands[c].kind.LaunchCmd? &&
        a.commands[c].workload == w;
      assert a.commands == db.commands && a.workloads[w].status.Pending?;
    }
  }

  lemma DisjointCount(a: set<WorkloadId>, b: set<WorkloadId>)
    requires a !! b
    ensures |a + b| == |a| + |b|
  {
  }

  /** Failing in two goes is failing at once. */
  lemma FailedInTwo(db: Db, a: Db, x: set<WorkloadId>, y: set<WorkloadId>, now: Time)
    requires x !! y && a.workloads == FailDetach(db, x, now).workloads &&
             a.attachments == FailDetach(db, x, now).attachments
    ensures FailDetach(a, y, now).workloads == FailDetach(db, x + y, now).workloads
    ensures FailDetach(a, y, now).attachments == FailDetach(db, x + y, now).attachments
  {
  }

  /** The tables before and after the sweep's last statement: taken one statement at a time, and
      in one piece. */
  function Closed(db: Db, now: Time): Db {
    var c := AfterLate(db, now);
    c.(commands := SupersedeRows(c))
  }

  function ClosedAtOnce(db: Db, now: Time): Db { CloseCommands(FailDetach(db, Reclaimed(db, now), now), now) }

  lemma RowsAddUp(db: Db, now: Time)
    ensures Closed(db, now).workloads == ClosedAtOnce(db, now).workloads
    ensures Closed(db, now).attachments == ClosedAtOnce(db, now).attachments
    ensures Closed(db, now).nodes == ClosedAtOnce(db, now).nodes
  {
    var a := AfterStuck(db, now);
    LateAreUndelivered(db, now);
    FailedInTwo(db, a.(commands := ExpireRows(a.commands, now)), StuckIn(db, now), LateLaunches(a, now), now);
  }

  /** A row that expires while its workload ends is closed the same way in either order. */
  lemma ClosedAlike(commands: Commands, c: Db, f: Db, now: Time, k: CommandId)
    requires k in commands && c.workloads == f.workloads
    requires c.commands == ExpireRows(commands, now) && f.commands == commands
    ensures SupersedeRows(c)[k] == CloseCommands(f, now).commands[k]
  {
    assert TerminalIn(c, commands[k].workload) == TerminalIn(f, commands[k].workload);
  }

  lemma CommandsAddUp(db: Db, now: Time)
    ensures Closed(db, now).commands == ClosedAtOnce(db, now).commands
  {
    RowsAddUp(db, now);
    var c, f := AfterLate(db, now), FailDetach(db, Reclaimed(db, now), now);
    assert c.commands == ExpireRows(db.commands, now) && f.commands == db.commands;
    forall k | k in db.commands ensures SupersedeRows(c)[k] == CloseCommands(f, now).commands[k] {
      ClosedAlike(db.commands, c, f, now, k);
    }
  }

  lemma FreedAddUp(db: Db, now: Time)
    ensures FreeUnheld(Closed(db, now)).gpus == FreeUnheld(ClosedAtOnce(db, now)).gpus
  {
    RowsAddUp(db, now);
    forall g | g in db.gpus ensures FreeUnheld(Closed(db, now)).gpus[g] == FreeUnheld(ClosedAtOnce(db, now)).gpus[g] {
      FreedInTwo(db, now, Closed(db, now), ClosedAtOnce(db, now), g);
    }
  }

  /** The sweep by statement: failing in two goes, freeing in two goes, is the sweep in one piece. */
  lemma SweepAddsUp(db: Db, now: Time)
    ensures FreeUnheld(Closed(db, now)) == Sweep(db, now)
    ensures var stuck, late := StuckIn(db, now), LateLaunches(AfterStuck(db, now), now);
            late <= db.workloads.Keys && |stuck| + |late| == |Reclaimed(db, now)|
  {
    LateAreUndelivered(db, now);
    DisjointCount(StuckIn(db, now), LateLaunches(AfterStuck(db, now), now));
    RowsAddUp(db, now);
    CommandsAddUp(db, now);
    FreedAddUp(db, now);
  }

  /** A GPU freed early would have been freed at the end as well. */
  lemma FreedInTwo(db: Db, now: Time, closed: Db, d: Db, g: GpuId)
    requires g in db.gpus && closed.gpus == AfterStuck(db, now).gpus && d.gpus == db.gpus
    requires closed.workloads == d.workloads && closed.attachments == d.attachments
    requires d.workloads == FailDetach(db, Reclaimed(db, now), now).workloads
    requires d.attachments == FailDetach(db, Reclaimed(db, now), now).attachments
    ensures FreeUnheld(closed).gpus[g] == FreeUnheld(d).gpus[g]
  {
    SameHolders(closed, d, g);
    var mid := FailDetach(db, StuckIn(db, now), now);
    StillHeld(mid, d, g);
  }

  lemma SameHolders(a: Db, b: Db, g: GpuId)
    requires a.workloads == b.workloads && a.attachments == b.attachments
    ensures HeldByActive(a, g) == HeldByActive(b, g)
  {
    assert forall w :: Holds(a, w, g) == Holds(b, w, g);
  }

  /** Whoever holds g after more workloads ended held it before. */
  lemma StillHeld(a: Db, b: Db, g: GpuId)
    requires a.workloads.Keys == b.workloads.Keys
    requires forall w | w in a.workloads :: b.workloads[w].status.Active() ==> a.workloads[w].status.Active()
    requires forall w :: Holds(b, w, g) ==> Holds(a, w, g)
    ensures HeldByActive(b, g) ==> HeldByActive(a, g)
  {
  }

  lemma RemovalAddsUp(db: Db, mid: Db, n: NodeId, busy: set<WorkloadId>, now: Time)
    requires busy == ActiveOn(db, n)
    requires mid.nodes == db.nodes && mid.gpus == db.gpus && mid.commands == db.commands
    requires mid.workloads == if busy == {} then db.workloads else FailAll(db, busy, ByAdmin, now).workloads
    requires mid.attachments.Keys == db.attachments.Keys
    requires forall k | k in db.attachments && !(k.1 in db.gpus && db.gpus[k.1].node == n) ::
      mid.attachments[k] == db.attachments[k]
    ensures DeleteNode(mid, n) == DeleteNode(FailAll(db, busy, ByAdmin, now), n)
  {
    var f := FailAll(db, busy, ByAdmin, now);
    assert mid.workloads == f.workloads;
    assert DeleteNode(mid, n).attachments == DeleteNode(f, n).attachments;
  }

  /** A pass under way. */
  ghost predicate PassSoFar(before: Db, db: Db, org: OrgId, admit: WorkloadId -> bool, ids: WorkloadId -> CommandId,
                            states: seq<Db>, cands: seq<WorkloadId>, placed: seq<bool>) {
    && IsQueue(before, org, cands) && IsPass(states, cands, placed)
    && states[0] == before && states[|placed|] == db
    && (forall k | 0 <= k < |placed| :: admit(cands[k]))
    && Origins(before, db, cands, |placed|, ids)
    && UnusedIds(before, org, ids)
  }

  /** Every new command belongs to one of the first n candidates. */
  ghost predicate Origins(before: Db, db: Db, cands: seq<WorkloadId>, n: nat, ids: WorkloadId -> CommandId)
    requires n <= |cands|
  {
    forall c | c in db.commands :: c in before.commands || exists k | 0 <= k < n :: c == ids(cands[k])
  }

  lemma OriginsStep(before: Db, a: Db, b: Db, cands: seq<WorkloadId>, n: nat, ids: WorkloadId -> CommandId)
    requires n < |cands| && Origins(before, a, cands, n, ids)
    requires b.commands.Keys <= a.commands.Keys + {ids(cands[n])}
    ensures Origins(before, b, cands, n + 1, ids)
  {
    forall c | c in b.commands && c !in before.commands ensures exists k | 0 <= k < n + 1 :: c == ids(cands[k]) {
      assert c in b.commands.Keys;
      if c in a.commands { var k :| 0 <= k < n && c == ids(cands[k]); }
    }
  }

  /** Each queued workload of the organization has a command id of its own, not used yet. */
  ghost predicate UnusedIds(db: Db, org: OrgId, ids: WorkloadId -> CommandId) {
    (forall v, w :: ids(v) == ids(w) ==> v == w) && (forall w :: QueuedIn(db, org, w) ==> ids(w) !in db.commands)
  }

  /** What a pass over one organization's queue leaves alone: other rows, and capacity but for
      what it takes; new commands belong to workloads it promoted. */
  ghost predicate PassFrame(a: Db, b: Db, org: OrgId, ids: WorkloadId -> CommandId) {
    && Shrunk(a, b)
    && (forall w | w in a.workloads && !QueuedIn(a, org, w) :: b.workloads[w] == a.workloads[w])
    && (forall c | c in b.commands :: c in a.commands || exists w :: QueuedIn(a, org, w) && c == ids(w))
  }

  /** The workloads that left the queue. */
  ghost function Left(a: Db, b: Db, org: OrgId): set<WorkloadId> {
    set w | w in a.workloads && QueuedIn(a, org, w) && !QueuedIn(b, org, w)
  }

  ghost function LeftAny(a: Db, b: Db): set<WorkloadId> {
    set w | w in a.workloads && a.workloads[w].status.Queued? && !(w in b.workloads && b.workloads[w].status.Queued?)
  }

  lemma PassFrames(before: Db, after: Db, org: OrgId, admit: WorkloadId -> bool, ids: WorkloadId -> CommandId,
                   states: seq<Db>, cands: seq<WorkloadId>, placed: seq<bool>)
    requires PassSoFar(before, after, org, admit, ids, states, cands, placed)
    ensures PassFrame(before, after, org, ids)
  {
    PassShrinks(states, cands, placed, 0, |placed|);
    forall w | w in before.workloads && !QueuedIn(before, org, w) ensures after.workloads[w] == before.workloads[w] {
      assert w !in cands;
      PassKeepsRow(states, cands, placed, 0, |placed|, w);
    }
    forall c | c in after.commands && c !in before.commands
      ensures exists w :: QueuedIn(before, org, w) && c == ids(w)
    {
      var k :| 0 <= k < |placed| && c == ids(cands[k]);
      assert QueuedIn(before, org, cands[k]);
    }
  }

  ghost function Started(cands: seq<WorkloadId>, placed: seq<bool>): set<WorkloadId>
    requires |placed| <= |cands|
  {
    set k | 0 <= k < |placed| && placed[k] :: cands[k]
  }

  lemma StartedNext(cands: seq<WorkloadId>, placed: seq<bool>)
    requires 0 < |placed| <= |cands| && forall i, j :: 0 <= i < j < |cands| ==> cands[i] != cands[j]
    ensures var n := |placed| - 1;
            cands[n] !in Started(cands, placed[..n]) &&
            Started(cands, placed) == Started(cands, placed[..n]) + if placed[n] then {cands[n]} else {}
  {
    var n := |placed| - 1;
    forall w ensures w in Started(cands, placed) <==>
                     w in Started(cands, placed[..n]) || (placed[n] && w == cands[n])
    {
      if w in Started(cands, placed) {
        var k :| 0 <= k < |placed| && placed[k] && cands[k] == w;
        assert k < n ==> placed[..n][k];
      }
      if w in Started(cands, placed[..n]) { var k :| 0 <= k < n && placed[..n][k] && cands[k] == w; assert placed[k]; }
    }
  }

  lemma {:induction false} StartedCount(cands: seq<WorkloadId>, placed: seq<bool>)
    requires |placed| <= |cands| && forall i, j :: 0 <= i < j < |cands| ==> cands[i] != cands[j]
    ensures |Started(cands, placed)| == Count(placed)
    decreases |placed|
  {
    if placed != [] {
      var n := |placed| - 1;
      var front := placed[..n];
      StartedCount(cands, front);
      StartedNext(cands, placed);
    }
  }

  /** A candidate leaves the queue on its turn if it is placed, and stays if it is not. */
  lemma LeavesWhenPlaced(states: seq<Db>, org: OrgId, cands: seq<WorkloadId>, placed: seq<bool>, k: nat)
    requires IsPass(states, cands, placed) && IsQueue(states[0], org, cands) && k < |placed|
    ensures cands[k] in states[0].workloads
    ensures QueuedIn(states[|placed|], org, cands[k]) <==> !placed[k]
  {
    var w := cands[k];
    assert QueuedIn(states[0], org, w);
    PassKeepsRow(states, cands, placed, 0, k, w);
    assert TurnAt(states, cands, placed, k);
    TurnShrinks(states[k], states[k + 1], w, placed[k]);
    PassKeepsRow(states, cands, placed, k + 1, |placed|, w);
  }

  /** Nobody left the queue past an earlier request of the same type that asks for no more GPUs. */
  ghost predicate InTurn(a: Db, b: Db, org: OrgId) {
    forall v, w | InLine(a, org, v, w) && w in b.workloads && b.workloads[w].status != Queued ::
      v in b.workloads && b.workloads[v].status != Queued
  }

  lemma ServedInTurn(states: seq<Db>, org: OrgId, cands: seq<WorkloadId>, placed: seq<bool>, v: WorkloadId,
                     w: WorkloadId)
    requires IsPass(states, cands, placed) && IsQueue(states[0], org, cands) && InLine(states[0], org, v, w)
    requires w in states[|placed|].workloads && states[|placed|].workloads[w].status != Queued
    ensures v in states[|placed|].workloads && states[|placed|].workloads[v].status != Queued
  {
    assert QueuedIn(states[0], org, v) && QueuedIn(states[0], org, w);
    var i :| 0 <= i < |cands| && cands[i] == v;
    var j :| 0 <= j < |cands| && cands[j] == w;
    assert i < j;
    PassShrinks(states, cands, placed, 0, |placed|);
    if j >= |placed| {
      PassKeepsRow(states, cands, placed, 0, |placed|, w);
      assert false;
    }
    LeavesWhenPlaced(states, org, cands, placed, i);
    LeavesWhenPlaced(states, org, cands, placed, j);
    NoOvertaking(states, org, cands, placed, i, j);
  }

  lemma PassCounts(before: Db, after: Db, org: OrgId, states: seq<Db>, cands: seq<WorkloadId>, placed: seq<bool>)
    requires IsPass(states, cands, placed) && IsQueue(before, org, cands) && states[0] == before &&
             states[|placed|] == after
    ensures Count(placed) == |Left(before, after, org)|
  {
    StartedCount(cands, placed);
    forall w ensures w in Left(before, after, org) <==> w in Started(cands, placed) {
      if QueuedIn(before, org, w) {
        assert w in cands;
        var k :| 0 <= k < |cands| && cands[k] == w;
        if k < |placed| { LeavesWhenPlaced(states, org, cands, placed, k); }
        else { PassKeepsRow(states, cands, placed, 0, |placed|, w); }
      } else {
        assert w !in cands;
      }
    }
    assert Left(before, after, org) == Started(cands, placed);
  }

  // ----- all organizations

  ghost predicate AllSoFar(before: Db, db: Db, todo: set<OrgId>, done: set<OrgId>, admit: WorkloadId -> bool,
                           ids: WorkloadId -> CommandId, total: nat) {
    && todo !! done && db.workloads.Keys == before.workloads.Keys
    && (forall w, o | QueuedIn(db, o, w) :: QueuedIn(before, o, w) && o in todo + done)
    && (forall o | o in todo :: UnusedIds(db, o, ids))
    && ((forall w :: admit(w)) ==> forall o, w | o in done && QueuedIn(db, o, w) :: !FitsNow(db, w))
    && total == |LeftAny(before, db)|
  }

  lemma AllStart(db: Db, todo: set<OrgId>, admit: WorkloadId -> bool, ids: WorkloadId -> CommandId)
    requires todo == set w | w in db.workloads && db.workloads[w].status.Queued? :: db.workloads[w].org
    requires forall o :: UnusedIds(db, o, ids)
    ensures AllSoFar(db, db, todo, {}, admit, ids, 0)
  {
    assert LeftAny(db, db) == {};
  }

  lemma AllEnd(before: Db, db: Db, done: set<OrgId>, admit: WorkloadId -> bool, ids: WorkloadId -> CommandId,
               total: nat)
    requires AllSoFar(before, db, {}, done, admit, ids, total)
    ensures (forall w :: admit(w)) ==> forall o, w :: QueuedIn(db, o, w) ==> !FitsNow(db, w)
    ensures total == |LeftAny(before, db)|
  {
  }

  lemma IdsStayUnused(a: Db, b: Db, org: OrgId, o: OrgId, ids: WorkloadId -> CommandId)
    requires PassFrame(a, b, org, ids) && UnusedIds(a, o, ids) && o != org
    ensures UnusedIds(b, o, ids)
  {
    forall w | QueuedIn(b, o, w) ensures ids(w) !in b.commands {
      assert QueuedIn(a, o, w);
      forall v | QueuedIn(a, org, v) ensures ids(v) != ids(w) { assert v != w; }
    }
  }

  /** What did not fit before another organization's pass does not fit after it. */
  lemma StillNotFitting(a: Db, b: Db, org: OrgId, ids: WorkloadId -> CommandId, o: OrgId, w: WorkloadId)
    requires PassFrame(a, b, org, ids) && o != org && QueuedIn(b, o, w) && w in a.workloads && !FitsNow(a, w)
    ensures !FitsNow(b, w)
  {
    var row := b.workloads[w];
    assert row == a.workloads[w];
    if FitsNow(b, w) { ShrunkFits(a, b, row.org, row.gpuType, row.count, row.count); }
  }

  lemma AllStep(before: Db, a: Db, b: Db, todo: set<OrgId>, done: set<OrgId>, admit: WorkloadId -> bool,
                ids: WorkloadId -> CommandId, total: nat, org: OrgId, n: nat)
    requires AllSoFar(before, a, todo, done, admit, ids, total) && org in todo
    requires PassFrame(a, b, org, ids) && n == |Left(a, b, org)|
    requires (forall w :: admit(w)) ==> forall w :: QueuedIn(b, org, w) ==> !FitsNow(b, w)
    ensures AllSoFar(before, b, todo - {org}, done + {org}, admit, ids, total + n)
  {
    forall w, o | QueuedIn(b, o, w) ensures QueuedIn(a, o, w) { assert w in a.workloads; }
    forall o | o in todo - {org} ensures UnusedIds(b, o, ids) { IdsStayUnused(a, b, org, o, ids); }
    if forall w :: admit(w) {
      forall o, w | o in done && QueuedIn(b, o, w) ensures !FitsNow(b, w) {
        assert QueuedIn(a, o, w);
        StillNotFitting(a, b, org, ids, o, w);
      }
    }
    LeftAdds(before, a, b, org);
  }

  lemma LeftAdds(before: Db, a: Db, b: Db, org: OrgId)
    requires a.workloads.Keys == before.workloads.Keys == b.workloads.Keys
    requires forall w, o | QueuedIn(a, o, w) :: QueuedIn(before, o, w)
    requires forall w | w in a.workloads && !QueuedIn(a, org, w) :: b.workloads[w] == a.workloads[w]
    requires forall w | w in a.workloads :: b.workloads[w].org == a.workloads[w].org
    ensures |LeftAny(before, b)| == |LeftAny(before, a)| + |Left(a, b, org)|
  {
    forall w | w in a.workloads && a.workloads[w].status.Queued? ensures before.workloads[w].status.Queued? {
      assert QueuedIn(a, a.workloads[w].org, w);
    }
    assert LeftAny(before, b) == LeftAny(before, a) + Left(a, b, org);
    DisjointCount(LeftAny(before, a), Left(a, b, org));
  }

  /** The next candidate's row is as it was queried, and its command id is unused. */
  lemma NextCandidate(before: Db, db: Db, org: OrgId, admit: WorkloadId -> bool, ids: WorkloadId -> CommandId,
                      states: seq<Db>, cands: seq<WorkloadId>, placed: seq<bool>)
    requires PassSoFar(before, db, org, admit, ids, states, cands, placed) && |placed| < |cands|
    ensures QueuedIn(db, org, cands[|placed|]) && ids(cands[|placed|]) !in db.commands
  {
    var w := cands[|placed|];
    assert QueuedIn(before, org, w);
    PassKeepsRow(states, cands, placed, 0, |placed|, w);
  }

  lemma TurnTaken(a: Db, b: Db, w: WorkloadId, c: CommandId, ok: bool, now: Time)
    requires w in a.workloads && c !in a.commands && (ok <==> FitsNow(a, w)) && (!ok ==> b == a)
    requires var row := a.workloads[w];
             ok ==> exists f :: Promoted(a, b, w, f, c, now, {})
    ensures Turn(a, b, w, ok)
    ensures b.commands.Keys == a.commands.Keys + if ok then {c} else {}
  {
    if ok {
      var row := a.workloads[w];
      var f :| Promoted(a, b, w, f, c, now, {});
      assert Claimable(a, row.org, row.gpuType, row.count, PlacementOf(f), {});
      PromoteCommands(a, w, PlacementOf(f), c, now);
    }
  }

  /** What PromoteOne ensures, as a turn of the pass. */
  lemma PassStep(before: Db, a: Db, b: Db, org: OrgId, admit: WorkloadId -> bool, ids: WorkloadId -> CommandId,
                 states: seq<Db>, cands: seq<WorkloadId>, placed: seq<bool>, ok: bool, now: Time)
    requires PassSoFar(before, a, org, admit, ids, states, cands, placed) && |placed| < |cands|
    requires admit(cands[|placed|]) && QueuedIn(a, org, cands[|placed|]) && ids(cands[|placed|]) !in a.commands
    requires var w := cands[|placed|];
             var row := a.workloads[w];
             (ok <==> Fits(a, org, row.gpuType, row.count, {})) &&
             (!ok ==> b == a) &&
             (ok ==> exists f :: Promoted(a, b, w, f, ids(w), now, {}))
    ensures PassSoFar(before, b, org, admit, ids, states + [b], cands, placed + [ok])
    ensures Count(placed + [ok]) == Count(placed) + if ok then 1 else 0
  {
    var w := cands[|placed|];
    TurnTaken(a, b, w, ids(w), ok, now);
    ExtendPass(states, cands, placed, b, ok);
    OriginsStep(before, a, b, cands, |placed|, ids);
  }

  lemma PromoteCommands(db: Db, w: WorkloadId, p: Placement, c: CommandId, now: Time)
    requires Promote(db, w, p, c, now).Ok?
    ensures Promote(db, w, p, c, now).value.commands.Keys == db.commands.Keys + {c}
  {
  }

  lemma PassEnd(before: Db, after: Db, org: OrgId, admit: WorkloadId -> bool, ids: WorkloadId -> CommandId,
                states: seq<Db>, cands: seq<WorkloadId>, placed: seq<bool>)
    requires PassSoFar(before, after, org, admit, ids, states, cands, placed)
    requires |placed| < |cands| ==> !admit(cands[|placed|])
    ensures PassDone(before, after, org, admit, states, cands, placed)
    ensures (forall w :: admit(w)) ==> forall w :: QueuedIn(after, org, w) ==> !FitsNow(after, w)
    ensures InTurn(before, after, org)
    ensures PassFrame(before, after, org, ids)
    ensures Count(placed) == |Left(before, after, org)|
  {
    forall v, w | InLine(before, org, v, w) && w in after.workloads && after.workloads[w].status != Queued
      ensures v in after.workloads && after.workloads[v].status != Queued
    {
      ServedInTurn(states, org, cands, placed, v, w);
    }
    PassFrames(before, after, org, admit, ids, states, cands, placed);
    PassCounts(before, after, org, states, cands, placed);
    if forall w :: admit(w) {
      forall w | QueuedIn(after, org, w) ensures !FitsNow(after, w) {
        PassIsMaximal(states, org, cands, placed, w);
      }
    }
  }

  /** What ended a pass: the queue, or a refusal. */
  ghost predicate PassDone(before: Db, after: Db, org: OrgId, admit: WorkloadId -> bool,
                           states: seq<Db>, cands: seq<WorkloadId>, placed: seq<bool>) {
    IsQueue(before, org, cands) && IsPass(states, cands, placed) && states[0] == before && states[|placed|] == after &&
    (forall k | 0 <= k < |placed| :: admit(cands[k])) && (|placed| < |cands| ==> !admit(cands[|placed|]))
  }

  function Count(placed: seq<bool>): nat {
    if placed == [] then 0 else Count(placed[..|placed| - 1]) + (if placed[|placed| - 1] then 1 else 0)
  }

  lemma ExtendPass(states: seq<Db>, cands: seq<WorkloadId>, placed: seq<bool>, next: Db, ok: bool)
    requires IsPass(states, cands, placed) && |placed| < |cands|
    requires Turn(states[|placed|], next, cands[|placed|], ok)
    ensures IsPass(states + [next], cands, placed + [ok])
    ensures Count(placed + [ok]) == Count(placed) + if ok then 1 else 0
  {
    var longer, flags := states + [next], placed + [ok];
    assert flags[..|placed|] == placed;
    forall k | 0 <= k < |flags| ensures TurnAt(longer, cands, flags, k) {
      if k < |placed| { assert TurnAt(states, cands, placed, k) && flags[k] == placed[k] && longer[k] == states[k]; }
    }
  }

  /** The unique index's view: w already has this GPU, or anyone holds it. */
  predicate Taken(db: Db, w: WorkloadId, g: GpuId) {
    (w, g) in db.attachments || exists v | v in db.workloads :: Holds(db, v, g)
  }

  ghost function Inserted(db: Db, w: WorkloadId, done: seq<GpuId>): Db {
    db.(attachments := db.attachments + OpenAttachments(w, Elements(done)))
  }

  lemma InsertedNext(db: Db, w: WorkloadId, gs: seq<GpuId>, i: nat)
    requires i < |gs|
    ensures var d := Inserted(db, w, gs[..i]);
            Inserted(db, w, gs[..i + 1]) == d.(attachments := d.attachments[(w, gs[i]) := None])
  {
    assert gs[..i + 1] == gs[..i] + [gs[i]];
    assert Elements(gs[..i + 1]) == Elements(gs[..i]) + {gs[i]};
    OpenedNext(w, Elements(gs[..i]), gs[i]);
  }

  lemma OpenedNext(w: WorkloadId, done: set<GpuId>, g: GpuId)
    ensures forall a: Attachments ::
            a + OpenAttachments(w, done + {g}) == (a + OpenAttachments(w, done))[(w, g) := None]
  {
  }

  /** Inserting one more row, which the earlier ones do not block. */
  lemma InsertOne(db: Db, w: WorkloadId, gs: seq<GpuId>, i: nat)
    requires i < |gs| && forall j :: 0 <= j < i ==> gs[j] != gs[i]
    ensures Taken(Inserted(db, w, gs[..i]), w, gs[i]) == Taken(db, w, gs[i])
    ensures Taken(db, w, gs[i]) ==> Attach(db, w, Elements(gs)) == Err(UniqueViolation)
  {
    NotYetOpened(db, w, gs[..i], gs[i]);
    if Taken(db, w, gs[i]) { assert gs[i] in Elements(gs); }
  }

  /** The row count of the flip tells whether every claimed GPU was still idle. */
  lemma AllHit(db: Db, gs: seq<GpuId>, hit: set<GpuId>)
    requires forall i, j :: 0 <= i < j < |gs| ==> gs[i] != gs[j]
    requires hit == set g | g in gs && g in db.gpus && db.gpus[g].status.Idle?
    ensures |hit| == |gs| <==> forall g | g in gs :: g in db.gpus && db.gpus[g].status.Idle?
    ensures |hit| == |gs| ==> hit == Elements(gs)
  {
    DistinctCount(gs);
    if |hit| == |gs| { SubsetEqual(hit, Elements(gs)); }
    if forall g | g in gs :: g in db.gpus && db.gpus[g].status.Idle? { assert hit == Elements(gs); }
  }

  lemma AttachOutcome(db: Db, w: WorkloadId, gs: seq<GpuId>, hit: set<GpuId>)
    requires forall i, j :: 0 <= i < j < |gs| ==> gs[i] != gs[j]
    requires forall j :: 0 <= j < |gs| ==> !Taken(db, w, gs[j])
    requires hit == set g | g in gs && g in db.gpus && db.gpus[g].status.Idle?
    ensures |hit| != |gs| ==> Attach(db, w, Elements(gs)) == Err(ClaimRaced)
    ensures |hit| == |gs| ==>
      Attach(db, w, Elements(gs)) ==
      Ok(Inserted(db, w, gs).(gpus := map g | g in db.gpus ::
        if g in hit then db.gpus[g].(status := InUse) else db.gpus[g]))
  {
    AllHit(db, gs, hit);
    forall g | g in Elements(gs) ensures !Taken(db, w, g) {
      var j :| 0 <= j < |gs| && gs[j] == g;
    }
  }

  lemma NotYetOpened(db: Db, w: WorkloadId, done: seq<GpuId>, g: GpuId)
    requires g !in done
    ensures var d := db.(attachments := db.attachments + OpenAttachments(w, Elements(done)));
            ((w, g) in d.attachments <==> (w, g) in db.attachments) && forall v :: Holds(d, v, g) == Holds(db, v, g)
  {
  }

  lemma SubsetEqual(a: set<GpuId>, b: set<GpuId>)
    requires a <= b && |a| == |b|
    ensures a == b
  {
    assert b == a + (b - a);
  }

  /** A launch that found room: first fit, and what it wrote. */
  ghost predicate Launched(a: Db, b: Db, w: WorkloadId, org: OrgId, gpuType: string, count: nat, f: Claimed,
                           c: CommandId, now: Time, busy: set<GpuId>) {
    && IsFirstFit(a, org, gpuType, count, f, busy) && TookExactly(a, b, w, Elements(f.gpus))
    && LaunchPlaced(a, w, org, gpuType, count, PlacementOf(f), c, now) == Ok(b)
    && b.workloads == a.workloads[w := PendingRow(org, gpuType, count, f.node, now)]
    && b.commands == a.commands[c := LaunchRow(f.node, w, now)]
  }

  /** A promotion: first fit, and what it wrote; the row keeps its place in time. */
  ghost predicate Promoted(a: Db, b: Db, w: WorkloadId, f: Claimed, c: CommandId, now: Time, busy: set<GpuId>)
    requires w in a.workloads
  {
    var row := a.workloads[w];
    && IsFirstFit(a, row.org, row.gpuType, row.count, f, busy) && TookExactly(a, b, w, Elements(f.gpus))
    && Promote(a, w, PlacementOf(f), c, now) == Ok(b)
    && b.workloads == a.workloads[w := row.(status := Pending, node := Some(f.node))]
    && b.commands == a.commands[c := LaunchRow(f.node, w, now)]
  }

  lemma FirstFitFits(db: Db, org: OrgId, gpuType: string, count: nat, c: Claimed, busy: set<GpuId>)
    requires IsFirstFit(db, org, gpuType, count, c, busy)
    ensures Fits(db, org, gpuType, count, busy)
  {
    assert c.node in db.nodes;
  }

  /** What first fit takes, read off the columns. */
  lemma FirstFitTakes(db: Db, org: OrgId, gpuType: string, count: nat, c: Claimed, busy: set<GpuId>)
    requires IsFirstFit(db, org, gpuType, count, c, busy)
    ensures forall g | g in c.gpus ::
              g in db.gpus && db.gpus[g].org == org && db.gpus[g].status == Idle && g !in busy &&
              db.gpus[g].node == c.node && c.node in db.nodes && db.nodes[c.node].status == Online
    ensures Like.IsPlain(gpuType) ==> forall g | g in c.gpus :: g in Takeable(db, org, gpuType, c.node, busy)
    ensures Like.IsPlain(gpuType) ==>
              forall g, h | g in c.gpus && h in Takeable(db, org, gpuType, c.node, busy) && h !in c.gpus ::
                g in db.gpus && db.gpus[g].index <= db.gpus[h].index
    ensures count > 0 && Like.IsPlain(gpuType) ==>
              forall n | n in db.nodes && n < c.node :: |Takeable(db, org, gpuType, n, busy)| < count
  {
    forall g | g in c.gpus ensures g in FreeOn(db, org, gpuType, c.node, busy) { assert g in PlacementOf(c).gpus; }
    if Like.IsPlain(gpuType) {
      FreeIsTakeable(db, org, gpuType, c.node, busy);
      forall g, h | g in c.gpus && h in Takeable(db, org, gpuType, c.node, busy) && h !in c.gpus
        ensures g in db.gpus && db.gpus[g].index <= db.gpus[h].index
      {
        assert h in FreeOn(db, org, gpuType, c.node, busy) && RowBefore(db, g, h);
      }
      if count > 0 {
        forall n | n in db.nodes && n < c.node ensures |Takeable(db, org, gpuType, n, busy)| < count {
          FitsWhenTakeable(db, org, gpuType, count, n, busy);
        }
      }
    }
  }

  lemma ClaimableGood(db: Db, org: OrgId, gpuType: string, count: nat, p: Placement, busy: set<GpuId>)
    requires Claimable(db, org, gpuType, count, p, busy)
    ensures GoodPlacement(db, p, count) && Suited(db, p, org, gpuType)
  {
    forall g | g in p.gpus
      ensures g in db.gpus && db.gpus[g].status.Idle? && db.gpus[g].node == p.node && SuitedGpu(db, g, org, gpuType)
    {
      assert g in FreeOn(db, org, gpuType, p.node, busy);
    }
  }

  predicate AsksFor(row: Workload, org: OrgId, gpuType: string, count: nat) {
    row.org == org && row.gpuType == gpuType && row.count == count
  }

  /** What the service claims, the transition system allows: its launches and promotions are steps. */
  lemma ClaimIsLegal(s: Runs.System, w: WorkloadId, org: OrgId, gpuType: string, count: nat, f: Claimed, c: CommandId,
                     now: Time, busy: set<GpuId>)
    requires IsFirstFit(s.db, org, gpuType, count, f, busy) && c !in s.spent
    ensures w !in s.db.workloads ==> Runs.Legal(s, Runs.Place(w, org, gpuType, count, PlacementOf(f), c, now))
    ensures w in s.db.workloads && AsksFor(s.db.workloads[w], org, gpuType, count) ==>
              Runs.Legal(s, Runs.PromoteOne(w, PlacementOf(f), c, now))
  {
    ClaimableGood(s.db, org, gpuType, count, PlacementOf(f), busy);
  }

  lemma QueuedSound(db: Db, w: WorkloadId, org: OrgId, gpuType: string, count: nat, now: Time)
    requires Sound(db) && w !in db.workloads
    ensures Sound(LaunchQueued(db, w, org, gpuType, count, now))
  {
    Runs.QueueStep(db, w, org, gpuType, count, now);
  }

  predicate Foremost(db: Db, v: WorkloadId, rest: set<WorkloadId>) {
    v in rest && forall w | w in rest :: QueuedBefore(db, v, w)
  }

  lemma {:induction false} FirstQueued(db: Db, rest: set<WorkloadId>)
    requires rest != {} && rest <= db.workloads.Keys
    ensures exists v :: Foremost(db, v, rest)
    decreases |rest|
  {
    var v :| v in rest;
    if rest - {v} == {} {
      assert rest == {v};
      assert Foremost(db, v, rest);
    } else {
      FirstQueued(db, rest - {v});
      var f :| Foremost(db, f, rest - {v});
      var first := if QueuedBefore(db, f, v) then f else v;
      forall w | w in rest ensures QueuedBefore(db, first, w) {
        if w != v { assert QueuedBefore(db, f, w); }
      }
      assert Foremost(db, first, rest);
    }
  }

  function PlacementOf(f: Claimed): Placement { Placement(f.node, Elements(f.gpus)) }

  ghost predicate IsFirstFit(db: Db, org: OrgId, gpuType: string, count: nat, c: Claimed, busy: set<GpuId>) {
    && Claimable(db, org, gpuType, count, PlacementOf(c), busy) && |c.gpus| == count
    && (forall i, j :: 0 <= i < j < |c.gpus| ==> c.gpus[i] != c.gpus[j])
    && FitsOn(db, org, gpuType, count, c.node, busy)
    && (forall n | n in db.nodes && n < c.node :: !FitsOn(db, org, gpuType, count, n, busy))
    && (forall g, h | g in c.gpus && h in FreeOn(db, org, gpuType, c.node, busy) && h !in c.gpus :: RowBefore(db, g, h))
  }

  /** The rows of one more GPU g, last in order, go to the end of its node's list. */
  lemma GroupRow(db: Db, head: seq<GpuId>, g: GpuId, was: seq<GpuId>)
    requires g in db.gpus && Ordered(db, head + [g]) && Ordered(db, was)
    requires forall h :: h in was <==> h in head && h in db.gpus && db.gpus[h].node == db.gpus[g].node
    ensures Ordered(db, was + [g])
    ensures forall h :: h in was + [g] <==> h in head + [g] && h in db.gpus && db.gpus[h].node == db.gpus[g].node
  {
    forall h | h in was ensures h != g && RowBefore(db, h, g) {
      var k :| 0 <= k < |head| && head[k] == h;
      assert (head + [g])[k] == h && (head + [g])[|head|] == g;
    }
  }

  lemma Extend(nodeOrder: seq<NodeId>, n: NodeId)
    requires forall a, b :: 0 <= a < b < |nodeOrder| ==> nodeOrder[a] < nodeOrder[b]
    requires forall m | m in nodeOrder :: m < n
    ensures var order := nodeOrder + [n]; forall a, b :: 0 <= a < b < |order| ==> order[a] < order[b]
  {
    var order := nodeOrder + [n];
    forall a, b | 0 <= a < b < |order| ensures order[a] < order[b] { assert order[a] in nodeOrder; }
  }

  /** One iteration of the grouping loop. */
  lemma GroupOne(db: Db, rows: seq<GpuId>, i: nat, byNode: map<NodeId, seq<GpuId>>, nodeOrder: seq<NodeId>)
    requires i < |rows| && Ordered(db, rows) && (forall g | g in rows :: g in db.gpus)
    requires Grouped(db, rows[..i], byNode, nodeOrder)
    requires forall n, j | n in nodeOrder && i <= j < |rows| :: n <= db.gpus[rows[j]].node
    ensures var n := db.gpus[rows[i]].node;
            var order := if n in byNode then nodeOrder else nodeOrder + [n];
            var was := if n in byNode then byNode[n] else [];
            Grouped(db, rows[..i + 1], byNode[n := was + [rows[i]]], order) &&
            forall m, j | m in order && i + 1 <= j < |rows| :: m <= db.gpus[rows[j]].node
  {
    var g, n := rows[i], db.gpus[rows[i]].node;
    var head, longer := rows[..i], rows[..i + 1];
    assert longer == head + [g];
    GroupRow(db, head, g, if n in byNode then byNode[n] else []);
    forall h ensures h in longer <==> h in head || h == g {}
    if n !in byNode {
      forall m | m in nodeOrder ensures m < n { assert m <= db.gpus[rows[i]].node; }
      Extend(nodeOrder, n);
    }
    forall j | i + 1 <= j < |rows| ensures n <= db.gpus[rows[j]].node {
      assert RowBefore(db, rows[i], rows[j]);
    }
  }

  /** The claim that succeeds is first fit. */
  lemma ClaimIsFirstFit(db: Db, org: OrgId, gpuType: string, rows: seq<GpuId>, byNode: map<NodeId, seq<GpuId>>,
                        nodeOrder: seq<NodeId>, k: nat, count: nat, busy: set<GpuId>)
    requires IsScan(db, org, gpuType, rows) && Grouped(db, rows, byNode, nodeOrder) && k < |nodeOrder|
    requires forall j | 0 <= j < k :: !FitsOn(db, org, gpuType, count, nodeOrder[j], busy)
    requires |Claim(db, byNode[nodeOrder[k]], busy, count)| == count
    ensures IsFirstFit(db, org, gpuType, count, Claimed(nodeOrder[k], Claim(db, byNode[nodeOrder[k]], busy, count)),
            busy)
  {
    var n := nodeOrder[k];
    var taken := Claim(db, byNode[n], busy, count);
    NodeRows(db, org, gpuType, rows, byNode, nodeOrder, n, count, busy);
    forall m | m in db.nodes && m < n ensures !FitsOn(db, org, gpuType, count, m, busy) {
      NotFitting(db, org, gpuType, rows, byNode, nodeOrder, k, m, count, busy);
    }
    forall g, h | g in taken && h in FreeOn(db, org, gpuType, n, busy) && h !in taken ensures RowBefore(db, g, h) {
      assert Candidate(db, org, gpuType, h) && h in rows;
      ClaimTakesLowest(db, byNode[n], busy, count, g, h);
    }
  }

  /** The rows of one node against what is free there. */
  lemma NodeRows(db: Db, org: OrgId, gpuType: string, rows: seq<GpuId>, byNode: map<NodeId, seq<GpuId>>,
                 nodeOrder: seq<NodeId>, n: NodeId, count: nat, busy: set<GpuId>)
    requires IsScan(db, org, gpuType, rows) && Grouped(db, rows, byNode, nodeOrder) && n in byNode
    ensures n in db.nodes && Ordered(db, byNode[n])
    ensures |byNode[n]| < count ==> !FitsOn(db, org, gpuType, count, n, busy)
    ensures var taken := Claim(db, byNode[n], busy, count);
            |Elements(taken)| == |taken| && Elements(taken) <= FreeOn(db, org, gpuType, n, busy) &&
            (|taken| == count <==> FitsOn(db, org, gpuType, count, n, busy))
  {
    var mine := byNode[n];
    var free := FreeOn(db, org, gpuType, n, busy);
    var taken := Claim(db, mine, busy, count);
    assert mine[0] in mine && Candidate(db, org, gpuType, mine[0]);
    forall g ensures g in free <==> g in mine && Eligible(db, g, busy) {
      if g in mine { assert g in rows && Candidate(db, org, gpuType, g); }
    }
    DistinctCount(taken);
    DistinctCount(mine);
    SubsetCount(free, Elements(mine));
    SubsetCount(Elements(taken), free);
    assert mine[0] in FreeOn(db, org, gpuType, n, {});
    if |taken| < count {
      ClaimComplete(db, mine, busy, count);
      assert free == Elements(taken);
    }
  }

  /** A node fits exactly when it is worth trying and the claim comes back full. */
  lemma NodeDecides(db: Db, org: OrgId, gpuType: string, rows: seq<GpuId>, byNode: map<NodeId, seq<GpuId>>,
                    nodeOrder: seq<NodeId>, n: NodeId, count: nat, busy: set<GpuId>)
    requires IsScan(db, org, gpuType, rows) && Grouped(db, rows, byNode, nodeOrder) && n in byNode
    ensures FitsOn(db, org, gpuType, count, n, busy) <==>
            |byNode[n]| >= count && |Claim(db, byNode[n], busy, count)| == count
  {
    NodeRows(db, org, gpuType, rows, byNode, nodeOrder, n, count, busy);
  }

  /** A node outside the tried prefix of the order has no candidate at all. */
  lemma NotFitting(db: Db, org: OrgId, gpuType: string, rows: seq<GpuId>, byNode: map<NodeId, seq<GpuId>>,
                   nodeOrder: seq<NodeId>, k: nat, m: NodeId, count: nat, busy: set<GpuId>)
    requires IsScan(db, org, gpuType, rows) && Grouped(db, rows, byNode, nodeOrder) && k <= |nodeOrder|
    requires forall j | 0 <= j < k :: !FitsOn(db, org, gpuType, count, nodeOrder[j], busy)
    requires k == |nodeOrder| || m < nodeOrder[k]
    ensures !FitsOn(db, org, gpuType, count, m, busy)
  {
    if m in byNode {
      var j :| 0 <= j < |nodeOrder| && nodeOrder[j] == m;
    } else {
      assert forall g | g in FreeOn(db, org, gpuType, m, {}) :: g in rows;
    }
  }
}
