/** Whose GPUs a workload gets: only its own organization's, and only of the type it asked for. */
module Tenancy {
  import opened Tables
  import opened Transitions
  import opened Books
  import opened FirstFit
  import opened Runs
  import Exactness
  import Interleaving
  import Like

  /** GPUs belong to their node's organization; whatever was ever attached to a workload is its
      organization's, and of a model that matches its type. */
  ghost predicate OwnGpus(db: Db) {
    && (forall g | g in db.gpus && db.gpus[g].node in db.nodes :: db.gpus[g].org == db.nodes[db.gpus[g].node].org)
    && (forall k | k in db.attachments && k.0 in db.workloads :: SuitedGpu(db, k.1, OrgOf(db, k.0), TypeOf(db, k.0)))
  }

  function OrgOf(db: Db, w: WorkloadId): OrgId requires w in db.workloads { db.workloads[w].org }

  function TypeOf(db: Db, w: WorkloadId): string requires w in db.workloads { db.workloads[w].gpuType }

  /** GPUs stay where they are, and a new one joins its node's organization. */
  ghost predicate FleetKept(a: Db, b: Db) {
    && (forall n | n in a.nodes && n in b.nodes :: b.nodes[n].org == a.nodes[n].org)
    && (forall g | g in b.gpus && g in a.gpus :: b.gpus[g] == a.gpus[g].(status := b.gpus[g].status))
    && (forall g | g in b.gpus && g !in a.gpus ::
          b.gpus[g].node in b.nodes && b.gpus[g].org == b.nodes[b.gpus[g].node].org)
  }

  lemma OwnGpusKept(a: Db, b: Db)
    requires Linked(a) && OwnGpus(a) && FleetKept(a, b) && Onward(a, b)
    requires forall k | k in b.attachments && k.0 in b.workloads ::
               k in a.attachments || SuitedGpu(b, k.1, OrgOf(b, k.0), TypeOf(b, k.0))
    ensures OwnGpus(b)
  {
    forall k | k in b.attachments && k.0 in b.workloads ensures SuitedGpu(b, k.1, OrgOf(b, k.0), TypeOf(b, k.0)) {
      if k in a.attachments {
        assert RowOnward(a, b, k.0);
        assert SuitedGpu(a, k.1, OrgOf(a, k.0), TypeOf(a, k.0));
      }
    }
  }

  lemma AttachedSuits(db: Db, w: WorkloadId, row: Workload, p: Placement)
    requires Attach(db.(workloads := db.workloads[w := row]), w, p.gpus).Ok? && Suited(db, p, row.org, row.gpuType)
    ensures var d := Attach(db.(workloads := db.workloads[w := row]), w, p.gpus).value;
            FleetKept(db, d) && d.workloads == db.workloads[w := row] &&
            forall k | k in d.attachments && k.0 in d.workloads ::
              k in db.attachments || SuitedGpu(d, k.1, OrgOf(d, k.0), TypeOf(d, k.0))
  {
    var d := Attach(db.(workloads := db.workloads[w := row]), w, p.gpus).value;
    forall k | k in d.attachments && k.0 in d.workloads && k !in db.attachments
      ensures SuitedGpu(d, k.1, OrgOf(d, k.0), TypeOf(d, k.0))
    {
      assert k.0 == w && k.1 in p.gpus;
      assert SuitedGpu(db, k.1, row.org, row.gpuType);
    }
  }

  lemma PlacedOwn(s: System, step: Step)
    requires Good(s) && Legal(s, step) && OwnGpus(s.db) && (step.Place? || step.PromoteOne?)
    ensures OwnGpus(Next(s, step).db)
  {
    StepGood(s, step);
    match step
    case Place(w, org, gpuType, count, p, c, now) =>
      if LaunchPlaced(s.db, w, org, gpuType, count, p, c, now).Ok? {
        AttachedSuits(s.db, w, NewWorkload(org, gpuType, count, Pending, Some(p.node), now, None), p);
        OwnGpusKept(s.db, Next(s, step).db);
      }
    case PromoteOne(w, p, c, now) =>
      if Promote(s.db, w, p, c, now).Ok? {
        AttachedSuits(s.db, w, s.db.workloads[w].(status := Pending, node := Some(p.node)), p);
        OwnGpusKept(s.db, Next(s, step).db);
      }
  }

  lemma NodesKept(s: System, step: Step)
    requires Legal(s, step) && !step.Place? && !step.PromoteOne?
    ensures forall n | n in s.db.nodes && n in Next(s, step).db.nodes ::
              Next(s, step).db.nodes[n].org == s.db.nodes[n].org
  {
    if step.SweepAll? { SweepTables(s.db, step.now); }
    else if step.Apply? {
      if step.r in s.reports && s.reports[step.r].Loaded? {
        ReportKeepsNodes(s.db, s.reports[step.r], step.c, step.now);
      }
    } else if step.Remove? {
      if RemoveNode(s.db, step.org, step.n, step.force, step.now).Ok? {
        RemovalKeepsNodes(s.db, step.org, step.n, step.force, step.now);
      }
    }
  }

  lemma ReportKeepsNodes(db: Db, r: Inflight, c: CommandId, now: Time)
    requires r.Loaded?
    ensures ApplyReport(db, r, c, now).nodes == db.nodes
  {
  }

  lemma RemovalKeepsNodes(db: Db, org: OrgId, n: NodeId, force: bool, now: Time)
    requires RemoveNode(db, org, n, force, now).Ok?
    ensures RemoveNode(db, org, n, force, now).value.nodes == db.nodes - {n}
  {
  }

  lemma FleetStays(s: System, step: Step)
    requires Good(s) && Legal(s, step) && !step.Place? && !step.PromoteOne?
    ensures FleetKept(s.db, Next(s, step).db)
  {
    var b := Next(s, step).db;
    NodesKept(s, step);
    forall g | g in b.gpus
      ensures if g in s.db.gpus then b.gpus[g] == s.db.gpus[g].(status := b.gpus[g].status)
              else b.gpus[g].node in b.nodes && b.gpus[g].org == b.nodes[b.gpus[g].node].org
    {
      if !(step.ReportGpu? && g == step.g) && !step.Queue? { Interleaving.GpusStayPut(s, step, g); }
    }
  }

  lemma StepOwn(s: System, step: Step)
    requires Good(s) && Legal(s, step) && OwnGpus(s.db)
    ensures OwnGpus(Next(s, step).db)
  {
    if step.Place? || step.PromoteOne? {
      PlacedOwn(s, step);
    } else {
      StepGood(s, step);
      FleetStays(s, step);
      Exactness.OthersDetach(s, step);
      forall k | k in Next(s, step).db.attachments ensures k in s.db.attachments {
        assert k in Next(s, step).db.attachments.Keys;
      }
      OwnGpusKept(s.db, Next(s, step).db);
    }
  }

  lemma {:induction false} RunOwn(run: seq<System>, i: nat)
    requires IsRun(run) && i < |run|
    ensures OwnGpus(run[i].db)
  {
    if i > 0 {
      RunOwn(run, i - 1);
      RunGood(run, i - 1);
      assert StepsAt(run, i - 1);
      var step :| Legal(run[i - 1], step) && Next(run[i - 1], step) == run[i];
      StepOwn(run[i - 1], step);
    }
  }

  /** The books of one holding: the GPU and its node are the organization's, and its model contains
      the type that was asked for, up to case. */
  ghost predicate Belongs(db: Db, w: WorkloadId, g: GpuId) {
    w in db.workloads && g in db.gpus && db.gpus[g].node in db.nodes &&
    db.gpus[g].org == db.workloads[w].org == db.nodes[db.gpus[g].node].org &&
    (Like.IsPlain(db.workloads[w].gpuType) && db.workloads[w].gpuType !in ["", "any"] ==>
       Like.Contains(Like.Fold(db.gpus[g].model), Like.Fold(db.workloads[w].gpuType)))
  }

  lemma OwnBelongs(db: Db, w: WorkloadId, g: GpuId)
    requires Linked(db) && OwnGpus(db) && (w, g) in db.attachments
    ensures Belongs(db, w, g)
  {
    assert SuitedGpu(db, g, OrgOf(db, w), TypeOf(db, w));
    if Like.IsPlain(db.workloads[w].gpuType) { TypeMatchesText(db.workloads[w].gpuType, db.gpus[g].model); }
  }

  /** Over every run: no workload ever gets another organization's GPU, nor one of the wrong type. */
  lemma OwnGpusOnly(run: seq<System>, i: nat, w: WorkloadId, g: GpuId)
    requires IsRun(run) && i < |run| && (w, g) in run[i].db.attachments
    ensures Belongs(run[i].db, w, g)
  {
    RunGood(run, i);
    RunOwn(run, i);
    OwnBelongs(run[i].db, w, g);
  }

  /** And with any number of placements open between their row locks. */
  lemma OwnGpusOnlyInterleaved(run: seq<Interleaving.Fine>, i: nat, w: WorkloadId, g: GpuId)
    requires Interleaving.IsFineRun(run) && i < |run| && (w, g) in run[i].sys.db.attachments
    ensures Belongs(run[i].sys.db, w, g)
  {
    Interleaving.InterleavedIsCoarse(run, i);
    var coarse :| Interleaving.EndsIn(coarse, run[i].sys);
    OwnGpusOnly(coarse, |coarse| - 1, w, g);
  }
}
