/** Queue promotion: what one pass over the queue achieves, whoever gets which GPUs. */
module Promotion {
  import opened Tables
  import opened Transitions
  import opened Books
  import opened FirstFit

  /** COALESCE(queued_at, created_at). */
  function QueueKey(row: Workload): Time { row.queuedAt.GetOr(row.createdAt) }

  predicate QueuedIn(db: Db, org: OrgId, w: WorkloadId) {
    w in db.workloads && db.workloads[w].org == org && db.workloads[w].status.Queued?
  }

  predicate QueuedBefore(db: Db, v: WorkloadId, w: WorkloadId) {
    v in db.workloads && w in db.workloads && QueueKey(db.workloads[v]) <= QueueKey(db.workloads[w])
  }

  /** The candidate query: every queued workload of the org once, oldest first. */
  ghost predicate IsQueue(db: Db, org: OrgId, cands: seq<WorkloadId>) {
    && (forall w :: w in cands <==> QueuedIn(db, org, w))
    && (forall i, j :: 0 <= i < j < |cands| ==> cands[i] != cands[j] && QueuedBefore(db, cands[i], cands[j]))
  }

  /** Both wait in the organization's queue for the same type, v for no more GPUs and since earlier. */
  predicate InLine(db: Db, org: OrgId, v: WorkloadId, w: WorkloadId) {
    v in db.workloads && w in db.workloads &&
    var a, b := db.workloads[v], db.workloads[w];
    a.org == b.org == org && a.status == b.status == Queued && a.gpuType == b.gpuType && a.count <= b.count &&
    (if a.queuedAt == None then a.createdAt else a.queuedAt.value) <
    (if b.queuedAt == None then b.createdAt else b.queuedAt.value)
  }

  predicate FitsNow(db: Db, w: WorkloadId)
    requires w in db.workloads
  {
    var row := db.workloads[w];
    Fits(db, row.org, row.gpuType, row.count, {})
  }

  /** A placement found by the claim: free matching GPUs of one online node. */
  ghost predicate Claimable(db: Db, org: OrgId, gpuType: string, count: nat, p: Placement, busy: set<GpuId>) {
    p.node in db.nodes && |p.gpus| == count && p.gpus <= FreeOn(db, org, gpuType, p.node, busy)
  }

  /** One candidate's turn, when nobody else holds locks: it starts if and only if it fits. */
  ghost predicate Turn(a: Db, b: Db, w: WorkloadId, placed: bool) {
    w in a.workloads && placed == FitsNow(a, w) &&
    if placed then
      exists p, c, now ::
        c !in a.commands && Claimable(a, a.workloads[w].org, a.workloads[w].gpuType, a.workloads[w].count, p, {}) &&
        Promote(a, w, p, c, now) == Ok(b)
    else b == a
  }

  /** A pass: states[k] is what the k-th candidate found, placed[k] whether it started. */
  ghost predicate IsPass(states: seq<Db>, cands: seq<WorkloadId>, placed: seq<bool>) {
    |states| == |placed| + 1 && |placed| <= |cands| &&
    forall k | 0 <= k < |placed| :: TurnAt(states, cands, placed, k)
  }

  ghost predicate TurnAt(states: seq<Db>, cands: seq<WorkloadId>, placed: seq<bool>, k: nat)
    requires |states| == |placed| + 1 && |placed| <= |cands| && k < |placed|
  {
    Turn(states[k], states[k + 1], cands[k], placed[k])
  }

  // ----- capacity only shrinks

  ghost predicate Shrunk(a: Db, b: Db) {
    && a.nodes == b.nodes && b.gpus.Keys == a.gpus.Keys
    && (forall g | g in a.gpus :: b.gpus[g] == a.gpus[g] || b.gpus[g] == a.gpus[g].(status := InUse))
    && a.workloads.Keys == b.workloads.Keys
    && (forall w | w in a.workloads ::
      b.workloads[w].org == a.workloads[w].org && b.workloads[w].count == a.workloads[w].count &&
                                       b.workloads[w].gpuType == a.workloads[w].gpuType)
  }

  lemma SubsetCount<T>(a: set<T>, b: set<T>)
    requires a <= b
    ensures |a| <= |b|
  {
    assert b == a + (b - a);
  }

  lemma ShrunkFits(a: Db, b: Db, org: OrgId, gpuType: string, small: nat, big: nat)
    requires Shrunk(a, b) && small <= big && Fits(b, org, gpuType, big, {})
    ensures Fits(a, org, gpuType, small, {})
  {
    var n :| n in b.nodes && FitsOn(b, org, gpuType, big, n, {});
    var fa, fb := FreeOn(a, org, gpuType, n, {}), FreeOn(b, org, gpuType, n, {});
    forall g | g in fb ensures g in fa { assert Candidate(b, org, gpuType, g); }
    SubsetCount(fb, fa);
    var g :| g in fb;
    assert g in fa;
    assert FitsOn(a, org, gpuType, small, n, {});
  }

  lemma AttachShrinks(db: Db, w: WorkloadId, gs: set<GpuId>)
    requires Attach(db, w, gs).Ok?
    ensures var d := Attach(db, w, gs).value;
            d.nodes == db.nodes && d.workloads == db.workloads && d.gpus.Keys == db.gpus.Keys &&
            forall g | g in db.gpus :: d.gpus[g] == if g in gs then db.gpus[g].(status := InUse) else db.gpus[g]
  {
  }

  lemma TurnShrinks(a: Db, b: Db, w: WorkloadId, placed: bool)
    requires Turn(a, b, w, placed)
    ensures Shrunk(a, b)
    ensures forall v | v in a.workloads && v != w :: b.workloads[v] == a.workloads[v]
    ensures placed ==> !b.workloads[w].status.Queued?
    ensures !placed ==> b == a
  {
    if placed {
      var p, c, now :|
        c !in a.commands && Claimable(a, a.workloads[w].org, a.workloads[w].gpuType, a.workloads[w].count, p, {}) &&
        Promote(a, w, p, c, now) == Ok(b);
      var db1 := a.(workloads := a.workloads[w := a.workloads[w].(status := Pending, node := Some(p.node))]);
      AttachShrinks(db1, w, p.gpus);
    }
  }

  lemma {:induction false} PassShrinks(states: seq<Db>, cands: seq<WorkloadId>, placed: seq<bool>, i: nat, j: nat)
    requires IsPass(states, cands, placed) && i <= j <= |placed|
    ensures Shrunk(states[i], states[j])
    decreases j
  {
    if i < j {
      PassShrinks(states, cands, placed, i, j - 1);
      assert TurnAt(states, cands, placed, j - 1);
      TurnShrinks(states[j - 1], states[j], cands[j - 1], placed[j - 1]);
    }
  }

  /** A row changes only on its own turn. */
  lemma {:induction false} PassKeepsRow(states: seq<Db>, cands: seq<WorkloadId>, placed: seq<bool>, i: nat, j: nat,
                                        w: WorkloadId)
    requires IsPass(states, cands, placed) && i <= j <= |placed| && w in states[i].workloads
    requires forall k | i <= k < j :: cands[k] != w
    ensures w in states[j].workloads && states[j].workloads[w] == states[i].workloads[w]
    decreases j
  {
    if i < j {
      PassKeepsRow(states, cands, placed, i, j - 1, w);
      assert TurnAt(states, cands, placed, j - 1);
      TurnShrinks(states[j - 1], states[j], cands[j - 1], placed[j - 1]);
    }
  }

  // ----- what a whole pass leaves behind

  /** Maximality: after a pass over the whole queue, run alone and never refused, no workload
      of the org is left queued that fits on any online node. */
  lemma PassIsMaximal(states: seq<Db>, org: OrgId, cands: seq<WorkloadId>, placed: seq<bool>, w: WorkloadId)
    requires IsPass(states, cands, placed) && |placed| == |cands| && IsQueue(states[0], org, cands)
    requires QueuedIn(states[|placed|], org, w)
    ensures !FitsNow(states[|placed|], w)
  {
    var n := |placed|;
    PassShrinks(states, cands, placed, 0, n);
    if w !in cands {
      PassKeepsRow(states, cands, placed, 0, n, w);
      assert false;
    }
    var k :| 0 <= k < n && cands[k] == w;
    assert TurnAt(states, cands, placed, k);
    TurnShrinks(states[k], states[k + 1], w, placed[k]);
    PassShrinks(states, cands, placed, 0, k + 1);
    PassKeepsRow(states, cands, placed, k + 1, n, w);
    PassShrinks(states, cands, placed, k, n);
    var row := states[n].workloads[w];
    if FitsNow(states[n], w) { ShrunkFits(states[k], states[n], row.org, row.gpuType, row.count, row.count); }
  }

  /** FIFO with skip: nobody starts past an older request of the same type that asks for no
      more GPUs. */
  lemma NoOvertaking(states: seq<Db>, org: OrgId, cands: seq<WorkloadId>, placed: seq<bool>, i: nat, j: nat)
    requires IsPass(states, cands, placed) && IsQueue(states[0], org, cands) && i < j < |placed| && placed[j]
    requires QueuedIn(states[0], org, cands[i]) && QueuedIn(states[0], org, cands[j])
    requires states[0].workloads[cands[i]].gpuType == states[0].workloads[cands[j]].gpuType
    requires states[0].workloads[cands[i]].count <= states[0].workloads[cands[j]].count
    ensures placed[i]
  {
    var v, w := cands[i], cands[j];
    PassShrinks(states, cands, placed, 0, i);
    PassShrinks(states, cands, placed, 0, j);
    PassShrinks(states, cands, placed, i, j);
    assert TurnAt(states, cands, placed, i) && TurnAt(states, cands, placed, j);
    var row := states[j].workloads[w];
    ShrunkFits(states[i], states[j], row.org, row.gpuType, states[i].workloads[v].count, row.count);
  }
}
