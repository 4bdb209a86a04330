/** Placement: which GPUs a request could take, and the claim of one node's rows. */
module FirstFit {
  import opened Tables
  import opened Transitions
  import Like

  predicate TypeMatches(gpuType: string, model: string) {
    gpuType == "" || gpuType == "any" || Like.IMatches("%" + gpuType + "%", model)
  }

  /** A type without metacharacters matches the models it occurs in, up to case. */
  lemma TypeMatchesText(gpuType: string, model: string)
    requires Like.IsPlain(gpuType)
    ensures TypeMatches(gpuType, model) <==>
            gpuType == "" || gpuType == "any" || Like.Contains(Like.Fold(model), Like.Fold(gpuType))
  {
    Like.PlainSearch(gpuType, model);
  }

  /** A row of the unlocked candidate scan. */
  predicate Candidate(db: Db, org: OrgId, gpuType: string, g: GpuId) {
    g in db.gpus &&
    var row := db.gpus[g];
    row.org == org && row.status.Idle? && row.node in db.nodes && db.nodes[row.node].status.Online? &&
    TypeMatches(gpuType, row.model)
  }

  /** Every claimed GPU is the organization's own, of a matching model. */
  predicate Suited(db: Db, p: Placement, org: OrgId, gpuType: string) {
    forall g | g in p.gpus :: SuitedGpu(db, g, org, gpuType)
  }

  predicate SuitedGpu(db: Db, g: GpuId, org: OrgId, gpuType: string) {
    g in db.gpus ==> db.gpus[g].org == org && TypeMatches(gpuType, db.gpus[g].model)
  }

  /** The candidates of one node that no other transaction has locked. */
  function FreeOn(db: Db, org: OrgId, gpuType: string, n: NodeId, busy: set<GpuId>): set<GpuId> {
    set g | g in db.gpus && g !in busy && db.gpus[g].node == n && Candidate(db, org, gpuType, g)
  }

  /** Read off the columns: the organization's own idle, unlocked GPUs of an online node whose model
      contains the text asked for. */
  function Takeable(db: Db, org: OrgId, gpuType: string, n: NodeId, busy: set<GpuId>): set<GpuId> {
    set g | g in db.gpus && g !in busy && n in db.nodes && db.nodes[n].status == Online &&
            db.gpus[g].node == n && db.gpus[g].org == org && db.gpus[g].status == Idle &&
            (gpuType in ["", "any"] || Like.Contains(Like.Fold(db.gpus[g].model), Like.Fold(gpuType)))
  }

  lemma FreeIsTakeable(db: Db, org: OrgId, gpuType: string, n: NodeId, busy: set<GpuId>)
    requires Like.IsPlain(gpuType)
    ensures FreeOn(db, org, gpuType, n, busy) == Takeable(db, org, gpuType, n, busy)
  {
    forall g | g in db.gpus
      ensures TypeMatches(gpuType, db.gpus[g].model) <==>
              gpuType in ["", "any"] || Like.Contains(Like.Fold(db.gpus[g].model), Like.Fold(gpuType))
    {
      TypeMatchesText(gpuType, db.gpus[g].model);
    }
  }

  /** Some online node has a matching GPU, and enough of them. */
  predicate Fits(db: Db, org: OrgId, gpuType: string, count: nat, busy: set<GpuId>) {
    exists n | n in db.nodes :: FitsOn(db, org, gpuType, count, n, busy)
  }

  predicate FitsOn(db: Db, org: OrgId, gpuType: string, count: nat, n: NodeId, busy: set<GpuId>) {
    FreeOn(db, org, gpuType, n, {}) != {} && |FreeOn(db, org, gpuType, n, busy)| >= count
  }

  /** A request for at least one GPU fits a node exactly when that many rows can be taken there. */
  lemma FitsWhenTakeable(db: Db, org: OrgId, gpuType: string, count: nat, n: NodeId, busy: set<GpuId>)
    requires Like.IsPlain(gpuType) && count > 0
    ensures FitsOn(db, org, gpuType, count, n, busy) <==> |Takeable(db, org, gpuType, n, busy)| >= count
  {
    FreeIsTakeable(db, org, gpuType, n, busy);
    if FreeOn(db, org, gpuType, n, busy) != {} {
      var g :| g in FreeOn(db, org, gpuType, n, busy);
      assert g in FreeOn(db, org, gpuType, n, {});
    }
  }

  /** Rows come back ordered by (node_id, gpu_index). */
  predicate RowBefore(db: Db, g: GpuId, h: GpuId) {
    g in db.gpus && h in db.gpus &&
    (db.gpus[g].node < db.gpus[h].node || (db.gpus[g].node == db.gpus[h].node && db.gpus[g].index <= db.gpus[h].index))
  }

  /** `rows` is a result of the scan: each candidate once, in order. */
  ghost predicate IsScan(db: Db, org: OrgId, gpuType: string, rows: seq<GpuId>) {
    && (forall g :: g in rows <==> Candidate(db, org, gpuType, g))
    && (forall i, j :: 0 <= i < j < |rows| ==> rows[i] != rows[j] && RowBefore(db, rows[i], rows[j]))
  }

  /** SELECT ... WHERE id = ANY(rows) AND status='idle' LIMIT n FOR UPDATE SKIP LOCKED: the first
      n rows that are still idle and not locked by anyone else. */
  function Claim(db: Db, rows: seq<GpuId>, busy: set<GpuId>, limit: nat): (taken: seq<GpuId>)
    ensures |taken| <= limit
    ensures forall g | g in taken :: g in rows && g !in busy && g in db.gpus && db.gpus[g].status.Idle?
    ensures forall i, j :: 0 <= i < j < |taken| ==> taken[i] != taken[j]
  {
    if rows == [] || limit == 0 then []
    else if rows[0] in db.gpus && db.gpus[rows[0]].status.Idle? && rows[0] !in busy then
      var rest := Claim(db, rows[1..], busy + {rows[0]}, limit - 1);
      [rows[0]] + rest
    else Claim(db, rows[1..], busy, limit)
  }

  function Elements(s: seq<GpuId>): (r: set<GpuId>)
    ensures forall g :: g in r <==> g in s
  {
    set g | g in s
  }

  lemma {:induction false} DistinctCount(s: seq<GpuId>)
    requires forall i, j :: 0 <= i < j < |s| ==> s[i] != s[j]
    ensures |Elements(s)| == |s|
    decreases |s|
  {
    if s != [] {
      DistinctCount(s[1..]);
      assert Elements(s) == {s[0]} + Elements(s[1..]);
    }
  }

  predicate Eligible(db: Db, g: GpuId, busy: set<GpuId>) {
    g in db.gpus && db.gpus[g].status.Idle? && g !in busy
  }

  /** A claim comes up short only when the node does. */
  lemma {:induction false} ClaimComplete(db: Db, rows: seq<GpuId>, busy: set<GpuId>, limit: nat)
    requires forall i, j :: 0 <= i < j < |rows| ==> rows[i] != rows[j]
    requires |Claim(db, rows, busy, limit)| < limit
    ensures forall g | g in rows && Eligible(db, g, busy) :: g in Claim(db, rows, busy, limit)
    decreases |rows|
  {
    if rows != [] {
      if Eligible(db, rows[0], busy) { ClaimComplete(db, rows[1..], busy + {rows[0]}, limit - 1); }
      else { ClaimComplete(db, rows[1..], busy, limit); }
    }
  }

  /** On rows in index order a claim takes the lowest indices. */
  lemma {:induction false} ClaimTakesLowest(db: Db, rows: seq<GpuId>, busy: set<GpuId>, limit: nat, g: GpuId, h: GpuId)
    requires forall i, j :: 0 <= i < j < |rows| ==> RowBefore(db, rows[i], rows[j])
    requires g in Claim(db, rows, busy, limit) && h in rows && h !in Claim(db, rows, busy, limit) &&
             Eligible(db, h, busy)
    ensures RowBefore(db, g, h)
    decreases |rows|
  {
    var k :| 0 <= k < |rows| && rows[k] == h;
    if Eligible(db, rows[0], busy) {
      if g != rows[0] { ClaimTakesLowest(db, rows[1..], busy + {rows[0]}, limit - 1, g, h); }
    } else {
      ClaimTakesLowest(db, rows[1..], busy, limit, g, h);
    }
  }

  lemma {:induction false} FirstRow(db: Db, rest: set<GpuId>)
    requires rest != {} && rest <= db.gpus.Keys
    ensures exists g | g in rest :: forall h | h in rest :: RowBefore(db, g, h)
    decreases |rest|
  {
    var g :| g in rest;
    if rest == {g} {
      assert forall h | h in rest :: RowBefore(db, g, h);
    } else {
      assert rest == {g} + (rest - {g});
      FirstRow(db, rest - {g});
      var f :| f in rest - {g} && forall h | h in rest - {g} :: RowBefore(db, f, h);
      if RowBefore(db, f, g) { assert forall h | h in rest :: RowBefore(db, f, h); }
      else { forall h | h in rest ensures RowBefore(db, g, h) { assert h == g || RowBefore(db, f, h); } }
    }
  }

  /** What the scan loop accumulates: per node its rows in order, nodes in order of first sight. */
  ghost predicate Grouped(db: Db, rows: seq<GpuId>, byNode: map<NodeId, seq<GpuId>>, nodeOrder: seq<NodeId>) {
    && (forall n :: n in nodeOrder <==> n in byNode)
    && (forall a, b :: 0 <= a < b < |nodeOrder| ==> nodeOrder[a] < nodeOrder[b])
    && (forall n | n in byNode :: byNode[n] != [] && Ordered(db, byNode[n]))
    && (forall n | n in byNode :: forall g :: g in byNode[n] <==> g in rows && g in db.gpus && db.gpus[g].node == n)
    && (forall g | g in rows :: g in db.gpus && db.gpus[g].node in byNode)
  }

  ghost predicate Ordered(db: Db, rows: seq<GpuId>) {
    forall i, j :: 0 <= i < j < |rows| ==> rows[i] != rows[j] && RowBefore(db, rows[i], rows[j])
  }
}
