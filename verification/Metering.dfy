/** Metering: each call bills one workload's time from its watermark on, for every GPU attached
    to it, and moves the watermark; usage, costs, debit and watermark commit together. */
module Metering {
  import opened Tables
  import opened Ledger

  const MIN_SLICE: Time := 5 * MINUTE
  const USD_TO_INR: real := 83.0

  datatype Usage = Usage(org: OrgId, workload: WorkloadId, gpu: GpuId, from: Time, to: Time, seconds: int)
  datatype Cost = Cost(org: OrgId, usage: nat, rate: real, amount: real)

  /** What billing writes: metered_until per workload, and three append-only tables. */
  datatype Accounts = Accounts(
    mark: map<WorkloadId, Time>,
    usage: seq<Usage>,
    costs: seq<Cost>,
    ledger: seq<Entry>)

  const NO_ACCOUNTS := Accounts(map[], [], [], [])

  /** The hourly rate in force for an organization and a GPU model at a time: its rate card, or
      the organization's default. */
  type Rates = (OrgId, string, Time) -> real

  ghost predicate NonNegative(rates: Rates) { forall o, m, t :: rates(o, m, t) >= 0.0 }

  // ----- one slice

  datatype Span = Span(from: Time, to: Time)

  function MarkOf(mark: map<WorkloadId, Time>, w: WorkloadId): Option<Time> {
    if w in mark then Some(mark[w]) else None
  }

  /** Where the next slice starts: everything before it is billed. */
  function BilledTo(row: Workload, mark: Option<Time>): Time
    requires row.startedAt.Some?
  {
    if mark.Some? && mark.value > row.startedAt.value then mark.value else row.startedAt.value
  }

  function Slice(row: Workload, mark: Option<Time>, now: Time): Option<Span> {
    if row.startedAt.None? || (row.status.Terminal() && row.stoppedAt.None?) then None
    else
      var from := BilledTo(row, mark);
      var to := if row.status.Terminal() then row.stoppedAt.value else now;
      if to <= from || (!row.status.Terminal() && to - from < MIN_SLICE) then None else Some(Span(from, to))
  }

  /** The GPUs that were ever attached to w and still exist. */
  function Attached(db: Db, w: WorkloadId): set<GpuId> { set g | g in db.gpus && (w, g) in db.attachments }

  ghost predicate IsListing(gs: seq<nat>, s: set<nat>) {
    (forall i, j | 0 <= i < j < |gs| :: gs[i] != gs[j]) && (forall g: nat :: g in gs <==> g in s)
  }

  function Seconds(span: Span): int { (span.to - span.from) / SECOND }

  function Amount(seconds: int, rate: real): real { seconds as real / 3600.0 * rate }

  function UsageRow(org: OrgId, w: WorkloadId, g: GpuId, span: Span): Usage {
    Usage(org, w, g, span.from, span.to, Seconds(span))
  }

  function UsageRows(org: OrgId, w: WorkloadId, gs: seq<GpuId>, span: Span): seq<Usage> {
    seq(|gs|, k requires 0 <= k < |gs| => UsageRow(org, w, gs[k], span))
  }

  predicate Known(db: Db, gs: seq<GpuId>) { forall k | 0 <= k < |gs| :: gs[k] in db.gpus }

  function RateAt(db: Db, rates: Rates, org: OrgId, g: GpuId, at: Time): real
    requires g in db.gpus
  {
    rates(org, db.gpus[g].model, at)
  }

  function CostRow(db: Db, rates: Rates, org: OrgId, usage: nat, g: GpuId, span: Span): Cost
    requires g in db.gpus
  {
    var rate := RateAt(db, rates, org, g, span.to);
    Cost(org, usage, rate, Amount(Seconds(span), rate))
  }

  function CostRows(db: Db, rates: Rates, org: OrgId, first: nat, gs: seq<GpuId>, span: Span): seq<Cost>
    requires Known(db, gs)
  {
    seq(|gs|, k requires 0 <= k < |gs| => CostRow(db, rates, org, first + k, gs[k], span))
  }

  function Total(db: Db, rates: Rates, org: OrgId, gs: seq<GpuId>, span: Span): real
    requires Known(db, gs)
  {
    if gs == [] then 0.0
    else Total(db, rates, org, gs[..|gs| - 1], span) + CostRow(db, rates, org, 0, gs[|gs| - 1], span).amount
  }

  function Charge(ledger: seq<Entry>, org: OrgId, total: real, w: WorkloadId, at: Time): seq<Entry> {
    if total > 0.0 then Post(ledger, org, -total * USD_TO_INR, Some(w), at) else ledger
  }

  /** The debit: in rupees, on its own row, naming the workload; none for a free slice. */
  lemma ChargeWrites(ledger: seq<Entry>, org: OrgId, total: real, w: WorkloadId, at: Time)
    ensures Charge(ledger, org, total, w, at) ==
            if total > 0.0
            then ledger + [Entry(org, -83.0 * total, Latest(ledger, org) - 83.0 * total, Some(w), at)] else ledger
  {
  }

  function Bill(db: Db, acc: Accounts, w: WorkloadId, gs: seq<GpuId>, rates: Rates, span: Span, now: Time): Accounts
    requires w in db.workloads && Known(db, gs)
  {
    var org := db.workloads[w].org;
    Accounts(acc.mark[w := span.to],
             acc.usage + UsageRows(org, w, gs, span),
             acc.costs + CostRows(db, rates, org, |acc.usage|, gs, span),
             Charge(acc.ledger, org, Total(db, rates, org, gs, span), w, now))
  }

  function SliceOf(db: Db, acc: Accounts, w: WorkloadId, now: Time): Option<Span> {
    if w in db.workloads then Slice(db.workloads[w], MarkOf(acc.mark, w), now) else None
  }

  /** One MeterWorkload; `gs` lists the attached GPUs in the order the query returned them. */
  function Metered(db: Db, acc: Accounts, w: WorkloadId, gs: seq<GpuId>, rates: Rates, now: Time): Accounts
    requires Known(db, gs)
  {
    var s := SliceOf(db, acc, w, now);
    if s.Some? then Bill(db, acc, w, gs, rates, s.value, now) else acc
  }

  // ----- one GPU's periods

  /** The periods billed for one GPU of one workload, in the order they were written. */
  function Periods(usage: seq<Usage>, w: WorkloadId, g: GpuId): seq<Usage> {
    if usage == [] then []
    else
      var last := usage[|usage| - 1];
      Periods(usage[..|usage| - 1], w, g) + if last.workload == w && last.gpu == g then [last] else []
  }

  /** A gap-free, overlap-free chain of non-empty periods from one time to another. */
  ghost predicate Tile(periods: seq<Usage>, from: Time, to: Time) {
    if periods == [] then from == to
    else
      var last := periods[|periods| - 1];
      last.from < last.to == to && last.seconds == Seconds(Span(last.from, last.to)) &&
      Tile(periods[..|periods| - 1], from, last.from)
  }

  function Elapsed(periods: seq<Usage>): int {
    if periods == [] then 0
    else Elapsed(periods[..|periods| - 1]) + (periods[|periods| - 1].to - periods[|periods| - 1].from)
  }

  function Charged(periods: seq<Usage>): int {
    if periods == [] then 0 else Charged(periods[..|periods| - 1]) + periods[|periods| - 1].seconds
  }

  ghost predicate Long(periods: seq<Usage>) {
    forall k | 0 <= k < |periods| :: periods[k].to - periods[k].from >= MIN_SLICE
  }

  /** Tiles add up to the time they span. */
  lemma {:induction false} TileElapsed(periods: seq<Usage>, from: Time, to: Time)
    requires Tile(periods, from, to)
    ensures Elapsed(periods) == to - from && from <= to
  {
    if periods != [] { TileElapsed(periods[..|periods| - 1], from, periods[|periods| - 1].from); }
  }

  /** Tiles are in order: no two of them share an instant. */
  lemma {:induction false} TilesApart(periods: seq<Usage>, from: Time, to: Time, i: nat, j: nat)
    requires Tile(periods, from, to) && i < j < |periods|
    ensures from <= periods[i].from < periods[i].to <= periods[j].from < periods[j].to <= to
    ensures j == i + 1 ==> periods[i].to == periods[j].from
    decreases |periods|
  {
    var n := |periods| - 1;
    var front := periods[..n];
    if j < n {
      TilesApart(front, from, periods[n].from, i, j);
    } else {
      TileBounds(front, from, periods[n].from, i);
    }
  }

  lemma {:induction false} TileBounds(periods: seq<Usage>, from: Time, to: Time, i: nat)
    requires Tile(periods, from, to) && i < |periods|
    ensures from <= periods[i].from < periods[i].to <= to
    ensures i == |periods| - 1 ==> periods[i].to == to
  {
    var n := |periods| - 1;
    TileElapsed(periods[..n], from, periods[n].from);
    if i < n { TileBounds(periods[..n], from, periods[n].from, i); }
  }

  /** Each period loses less than a second to truncation. */
  lemma {:induction false} TruncationPerPeriod(periods: seq<Usage>, from: Time, to: Time)
    requires Tile(periods, from, to)
    ensures SECOND * Charged(periods) <= to - from <= SECOND * Charged(periods) + SECOND * |periods|
    ensures periods != [] ==> to - from < SECOND * Charged(periods) + SECOND * |periods|
  {
    if periods != [] { TruncationPerPeriod(periods[..|periods| - 1], from, periods[|periods| - 1].from); }
  }

  lemma {:induction false} LongTakesTime(periods: seq<Usage>, from: Time, to: Time)
    requires Tile(periods, from, to) && Long(periods)
    ensures MIN_SLICE * |periods| <= to - from
  {
    if periods != [] { LongTakesTime(periods[..|periods| - 1], from, periods[|periods| - 1].from); }
  }

  /** The truncation bound: when every period but the last is at least the minimum slice, the
      seconds charged never exceed the elapsed time T and fall short by less than T/300 + 1. */
  lemma TruncationBound(periods: seq<Usage>, from: Time, to: Time)
    requires Tile(periods, from, to) && (periods == [] || Long(periods[..|periods| - 1]))
    ensures SECOND * Charged(periods) <= to - from
    ensures 300 * (to - from - SECOND * Charged(periods)) < (to - from) + 300 * SECOND
  {
    TruncationPerPeriod(periods, from, to);
    if periods != [] { LongTakesTime(periods[..|periods| - 1], from, periods[|periods| - 1].from); }
  }

  // ----- what one call adds

  lemma {:induction false} PeriodsAppend(u: seq<Usage>, v: seq<Usage>, w: WorkloadId, g: GpuId)
    ensures Periods(u + v, w, g) == Periods(u, w, g) + Periods(v, w, g)
  {
    if v == [] {
      assert u + v == u;
    } else {
      assert (u + v)[..|u + v| - 1] == u + v[..|v| - 1];
      PeriodsAppend(u, v[..|v| - 1], w, g);
    }
  }

  /** One call bills each listed GPU of w once, and nothing else. */
  lemma {:induction false} RowsPeriods(org: OrgId, w: WorkloadId, gs: seq<GpuId>, span: Span, v: WorkloadId, g: GpuId)
    requires forall i, j | 0 <= i < j < |gs| :: gs[i] != gs[j]
    ensures Periods(UsageRows(org, w, gs, span), v, g) == if v == w && g in gs then [UsageRow(org, w, g, span)] else []
  {
    if gs != [] {
      var n := |gs| - 1;
      assert UsageRows(org, w, gs, span)[..n] == UsageRows(org, w, gs[..n], span);
      RowsPeriods(org, w, gs[..n], span, v, g);
      assert g in gs <==> g in gs[..n] || g == gs[n];
    }
  }

  /** The effect of a call on one GPU's periods. */
  lemma BillPeriods(db: Db, acc: Accounts, w: WorkloadId, gs: seq<GpuId>, rates: Rates, span: Span, now: Time,
                    v: WorkloadId, g: GpuId)
    requires w in db.workloads && IsListing(gs, Attached(db, w))
    ensures Known(db, gs)
    ensures Periods(Bill(db, acc, w, gs, rates, span, now).usage, v, g) ==
            Periods(acc.usage, v, g) +
            if v == w && g in Attached(db, w) then [UsageRow(db.workloads[w].org, w, g, span)] else []
  {
    assert forall k | 0 <= k < |gs| :: gs[k] in gs;
    PeriodsAppend(acc.usage, UsageRows(db.workloads[w].org, w, gs, span), v, g);
    RowsPeriods(db.workloads[w].org, w, gs, span, v, g);
  }

  // ----- costs and charges

  function CostOf(costs: seq<Cost>, org: OrgId): real {
    if costs == [] then 0.0
    else CostOf(costs[..|costs| - 1], org) + if costs[|costs| - 1].org == org then costs[|costs| - 1].amount else 0.0
  }

  /** An organization's charges are its costs, converted. */
  ghost predicate Charges(acc: Accounts) {
    Balanced(acc.ledger) && forall o :: ChargesOf(acc, o)
  }

  ghost predicate ChargesOf(acc: Accounts, o: OrgId) { Spent(acc.ledger, o) == USD_TO_INR * CostOf(acc.costs, o) }

  lemma {:induction false} CostsAppend(c: seq<Cost>, d: seq<Cost>, o: OrgId)
    ensures CostOf(c + d, o) == CostOf(c, o) + CostOf(d, o)
  {
    if d == [] {
      assert c + d == c;
    } else {
      assert (c + d)[..|c + d| - 1] == c + d[..|d| - 1];
      CostsAppend(c, d[..|d| - 1], o);
    }
  }

  lemma {:induction false} RowsCost(db: Db, rates: Rates, org: OrgId, first: nat, gs: seq<GpuId>, span: Span, o: OrgId)
    requires Known(db, gs)
    ensures CostOf(CostRows(db, rates, org, first, gs, span), o) ==
            if o == org then Total(db, rates, org, gs, span) else 0.0
  {
    if gs != [] {
      var n := |gs| - 1;
      assert CostRows(db, rates, org, first, gs, span)[..n] == CostRows(db, rates, org, first, gs[..n], span);
      RowsCost(db, rates, org, first, gs[..n], span, o);
    }
  }

  lemma {:induction false} TotalNonNegative(db: Db, rates: Rates, org: OrgId, gs: seq<GpuId>, span: Span)
    requires Known(db, gs) && NonNegative(rates) && span.from <= span.to
    ensures Total(db, rates, org, gs, span) >= 0.0
  {
    if gs != [] {
      TotalNonNegative(db, rates, org, gs[..|gs| - 1], span);
      AmountNonNegative(Seconds(span), RateAt(db, rates, org, gs[|gs| - 1], span.to));
    }
  }

  lemma AmountNonNegative(seconds: int, rate: real)
    requires seconds >= 0 && rate >= 0.0
    ensures Amount(seconds, rate) >= 0.0
  {
  }

  /** Billing keeps charges equal to converted costs exactly when the total is not negative:
      the debit is skipped below zero. */
  lemma BillCharges(db: Db, acc: Accounts, w: WorkloadId, gs: seq<GpuId>, rates: Rates, span: Span, now: Time)
    requires w in db.workloads && Known(db, gs) && Charges(acc)
    ensures Balanced(Bill(db, acc, w, gs, rates, span, now).ledger)
    ensures Charges(Bill(db, acc, w, gs, rates, span, now)) <==> Total(db, rates, db.workloads[w].org, gs, span) >= 0.0
  {
    var org := db.workloads[w].org;
    var total, b := Total(db, rates, org, gs, span), Bill(db, acc, w, gs, rates, span, now);
    if total > 0.0 { PostBalanced(acc.ledger, org, -total * USD_TO_INR, Some(w), now); }
    forall o ensures CostOf(b.costs, o) == CostOf(acc.costs, o) + if o == org then total else 0.0 {
      CostsAppend(acc.costs, CostRows(db, rates, org, |acc.usage|, gs, span), o);
      RowsCost(db, rates, org, |acc.usage|, gs, span, o);
    }
    if total >= 0.0 {
      forall o ensures ChargesOf(b, o) { assert ChargesOf(acc, o); }
    } else {
      assert ChargesOf(acc, org) && !ChargesOf(b, org);
    }
  }

  /** Every cost record prices its own usage record. */
  ghost predicate Priced(acc: Accounts) {
    |acc.costs| == |acc.usage| && forall k | 0 <= k < |acc.usage| :: PricedAt(acc, k)
  }

  ghost predicate PricedAt(acc: Accounts, k: nat)
    requires k < |acc.usage| && |acc.costs| == |acc.usage|
  {
    var u, c := acc.usage[k], acc.costs[k];
    c.usage == k && c.org == u.org && u.seconds == Seconds(Span(u.from, u.to)) && c.amount == Amount(u.seconds, c.rate)
  }

  /** The rate is per GPU hour. */
  predicate HourlyPrice(u: Usage, c: Cost) { 3600.0 * c.amount == u.seconds as real * c.rate }

  lemma MeteredPriced(db: Db, acc: Accounts, w: WorkloadId, gs: seq<GpuId>, rates: Rates, now: Time)
    requires Known(db, gs) && Priced(acc)
    ensures Priced(Metered(db, acc, w, gs, rates, now))
  {
    var s, b := SliceOf(db, acc, w, now), Metered(db, acc, w, gs, rates, now);
    if s.Some? {
      forall k | 0 <= k < |b.usage| ensures PricedAt(b, k) {
        if k < |acc.usage| { assert PricedAt(acc, k); }
      }
    }
  }

  lemma MeteredCharges(db: Db, acc: Accounts, w: WorkloadId, gs: seq<GpuId>, rates: Rates, now: Time)
    requires Known(db, gs) && Charges(acc) && NonNegative(rates)
    ensures Charges(Metered(db, acc, w, gs, rates, now))
  {
    var s := SliceOf(db, acc, w, now);
    if s.Some? {
      TotalNonNegative(db, rates, db.workloads[w].org, gs, s.value);
      BillCharges(db, acc, w, gs, rates, s.value, now);
    }
  }

  /** A top-up is spent by nobody. */
  lemma CreditCharges(acc: Accounts, org: OrgId, amount: real, now: Time)
    requires Charges(acc) && amount > 0.0
    ensures Charges(acc.(ledger := Post(acc.ledger, org, amount, None, now)))
  {
    var b := acc.(ledger := Post(acc.ledger, org, amount, None, now));
    PostBalanced(acc.ledger, org, amount, None, now);
    forall o ensures ChargesOf(b, o) { assert ChargesOf(acc, o); }
  }

  // ----- a pass over everything that owes

  predicate Owes(row: Workload, mark: Option<Time>, now: Time) {
    row.startedAt.Some? &&
    var done := mark.GetOr(row.startedAt.value);
    ((row.status.Running? || row.status.Stopping?) && done < now - MIN_SLICE) ||
    (row.status.Terminal() && row.stoppedAt.Some? && done < row.stoppedAt.value)
  }

  function Owing(db: Db, mark: map<WorkloadId, Time>, now: Time): set<WorkloadId> {
    set w | w in db.workloads && Owes(db.workloads[w], MarkOf(mark, w), now)
  }

  /** Nothing is left to bill: a terminal workload to its end, an active one within a slice. */
  predicate UpToDate(row: Workload, mark: Option<Time>, now: Time) {
    row.startedAt.Some? ==>
      (row.status.Terminal() && row.stoppedAt.Some? ==> BilledTo(row, mark) >= row.stoppedAt.value) &&
      (row.status.Running? || row.status.Stopping? ==> now - BilledTo(row, mark) <= 300 * SECOND)
  }

  predicate AllKnown(db: Db, lists: seq<seq<GpuId>>) { forall i | 0 <= i < |lists| :: Known(db, lists[i]) }

  /** After the first k calls of a pass; a failing call rolls back and the pass goes on. */
  function Pass(db: Db, acc: Accounts, ids: seq<WorkloadId>, lists: seq<seq<GpuId>>, rates: Rates,
                fails: WorkloadId -> bool, now: Time, k: nat): Accounts
    requires k <= |ids| && k <= |lists| && AllKnown(db, lists)
  {
    if k == 0 then acc
    else
      var before := Pass(db, acc, ids, lists, rates, fails, now, k - 1);
      if fails(ids[k - 1]) then before else Metered(db, before, ids[k - 1], lists[k - 1], rates, now)
  }

  /** A call leaves its workload up to date and no other workload's watermark changed. */
  lemma MeteredUpToDate(db: Db, acc: Accounts, w: WorkloadId, gs: seq<GpuId>, rates: Rates, now: Time)
    requires w in db.workloads && Known(db, gs)
    ensures var b := Metered(db, acc, w, gs, rates, now);
            UpToDate(db.workloads[w], MarkOf(b.mark, w), now) &&
            forall v | v != w :: MarkOf(b.mark, v) == MarkOf(acc.mark, v)
  {
  }

  /** With the clock held, a pass leaves every workload whose call did not fail up to date. */
  lemma {:induction false} PassUpToDate(db: Db, acc: Accounts, ids: seq<WorkloadId>, lists: seq<seq<GpuId>>,
                                        rates: Rates, fails: WorkloadId -> bool, now: Time, k: nat, w: WorkloadId)
    requires k <= |ids| && k <= |lists| && AllKnown(db, lists)
    requires w in db.workloads
    ensures var b := Pass(db, acc, ids, lists, rates, fails, now, k);
            (w in ids[..k] && !fails(w) ==> UpToDate(db.workloads[w], MarkOf(b.mark, w), now)) &&
            (w !in ids[..k] ==> MarkOf(b.mark, w) == MarkOf(acc.mark, w))
    decreases k
  {
    if k > 0 {
      PassUpToDate(db, acc, ids, lists, rates, fails, now, k - 1, w);
      var before, v := Pass(db, acc, ids, lists, rates, fails, now, k - 1), ids[k - 1];
      assert ids[..k] == ids[..k - 1] + [v];
      if v in db.workloads { MeteredUpToDate(db, before, v, lists[k - 1], rates, now); }
    }
  }

  // ----- the service

  lemma NextGpu(db: Db, rates: Rates, org: OrgId, w: WorkloadId, first: nat, gs: seq<GpuId>, span: Span, k: nat)
    requires Known(db, gs) && k < |gs|
    ensures UsageRows(org, w, gs[..k + 1], span) == UsageRows(org, w, gs[..k], span) + [UsageRow(org, w, gs[k], span)]
    ensures CostRows(db, rates, org, first, gs[..k + 1], span) ==
            CostRows(db, rates, org, first, gs[..k], span) + [CostRow(db, rates, org, first + k, gs[k], span)]
    ensures Total(db, rates, org, gs[..k + 1], span) ==
            Total(db, rates, org, gs[..k], span) + CostRow(db, rates, org, first + k, gs[k], span).amount
  {
    assert gs[..k + 1][..k] == gs[..k];
  }

  lemma {:induction false} ListingExists(s: set<GpuId>) returns (gs: seq<GpuId>)
    ensures IsListing(gs, s)
    decreases |s|
  {
    if s == {} {
      gs := [];
    } else {
      var g :| g in s;
      var rest := ListingExists(s - {g});
      gs := rest + [g];
    }
  }

  class Service {
    var db: Db
    var mark: map<WorkloadId, Time>
    var usage: seq<Usage>
    var costs: seq<Cost>
    var ledger: seq<Entry>

    constructor (tables: Db)
      ensures db == tables && Books() == NO_ACCOUNTS
    {
      db := tables;
      mark, usage, costs, ledger := map[], [], [], [];
    }

    ghost function Books(): Accounts
      reads this
    {
      Accounts(mark, usage, costs, ledger)
    }

    /** The attached GPUs, in any order. */
    method QueryGpus(w: WorkloadId) returns (gs: seq<GpuId>)
      ensures IsListing(gs, Attached(db, w))
    {
      var todo := Attached(db, w);
      gs := [];
      while todo != {}
        invariant IsListing(gs, Attached(db, w) - todo) && todo <= Attached(db, w)
        decreases todo
      {
        var g :| g in todo;
        gs, todo := gs + [g], todo - {g};
      }
    }

    method PostLedger(org: OrgId, delta: real, w: Option<WorkloadId>, now: Time)
      modifies `ledger
      ensures ledger == Post(old(ledger), org, delta, w, now)
    {
      var i := |ledger|;
      assert ledger[..i] == ledger;
      while i > 0 && ledger[i - 1].org != org
        invariant 0 <= i <= |ledger| && Latest(ledger, org) == Latest(ledger[..i], org)
      {
        assert ledger[..i][..i - 1] == ledger[..i - 1];
        i := i - 1;
      }
      var balance := if i > 0 then ledger[i - 1].balance else 0.0;
      ledger := ledger + [Entry(org, delta, balance + delta, w, now)];
    }

    method MeterWorkload(w: WorkloadId, rates: Rates, now: Time) returns (ghost gs: seq<GpuId>)
      modifies `mark, `usage, `costs, `ledger
      ensures IsListing(gs, Attached(db, w)) && Known(db, gs)
      ensures Books() == Metered(db, old(Books()), w, gs, rates, now)
    {
      gs := ListingExists(Attached(db, w));
      ListingKnown(db, w, gs);
      if w !in db.workloads { return; }
      var row := db.workloads[w];
      if row.startedAt.None? { return; }
      var from := row.startedAt.value;
      if w in mark && mark[w] > from { from := mark[w]; }
      var to := now;
      if row.status.Terminal() {
        if row.stoppedAt.None? { return; }
        to := row.stoppedAt.value;
      }
      if to <= from { return; }
      if !row.status.Terminal() && to - from < MIN_SLICE { return; }
      var listed := QueryGpus(w);
      gs := listed;
      ListingKnown(db, w, gs);
      BillGpus(w, row.org, listed, rates, Span(from, to), now);
    }

    /** The loop over the GPUs, the debit, and the watermark. */
    method BillGpus(w: WorkloadId, org: OrgId, gs: seq<GpuId>, rates: Rates, span: Span, now: Time)
      requires w in db.workloads && org == db.workloads[w].org && Known(db, gs)
      modifies `mark, `usage, `costs, `ledger
      ensures Books() == Bill(db, old(Books()), w, gs, rates, span, now)
    {
      var gpuSeconds := Seconds(span);
      var total := 0.0;
      for k := 0 to |gs|
        invariant usage == old(usage) + UsageRows(org, w, gs[..k], span)
        invariant costs == old(costs) + CostRows(db, rates, org, |old(usage)|, gs[..k], span)
        invariant total == Total(db, rates, org, gs[..k], span)
        invariant mark == old(mark) && ledger == old(ledger)
      {
        NextGpu(db, rates, org, w, |old(usage)|, gs, span, k);
        var rate := rates(org, db.gpus[gs[k]].model, span.to);
        var amount := gpuSeconds as real / 3600.0 * rate;
        usage := usage + [Usage(org, w, gs[k], span.from, span.to, gpuSeconds)];
        costs := costs + [Cost(org, |usage| - 1, rate, amount)];
        total := total + amount;
        assert costs[|costs| - 1] == CostRow(db, rates, org, |old(usage)| + k, gs[k], span);
      }
      assert gs[..|gs|] == gs;
      if total > 0.0 { PostLedger(org, -total * USD_TO_INR, Some(w), now); }
      mark := mark[w := span.to];
    }

    /** The workloads that owe a slice, each once, in any order. */
    method QueryOwing(now: Time) returns (ids: seq<WorkloadId>)
      ensures IsListing(ids, Owing(db, mark, now))
    {
      var todo := Owing(db, mark, now);
      ids := [];
      while todo != {}
        invariant IsListing(ids, Owing(db, mark, now) - todo) && todo <= Owing(db, mark, now)
        decreases todo
      {
        var w :| w in todo;
        ids, todo := ids + [w], todo - {w};
      }
    }

    /** One pass: every workload the query finds owing is metered once; a failed call is skipped.
        Afterwards every workload whose call did not fail is up to date. */
    method MeterRunning(rates: Rates, fails: WorkloadId -> bool, now: Time)
      returns (n: nat, ghost ids: seq<WorkloadId>, ghost lists: seq<seq<GpuId>>)
      modifies `mark, `usage, `costs, `ledger
      ensures IsListing(ids, Owing(db, old(mark), now))
      ensures IsPass(db, old(Books()), ids, lists, |ids|, rates, fails, now, Books())
      ensures n == |set w | w in Owing(db, old(mark), now) && !fails(w)|
      ensures forall w | w in db.workloads && !fails(w) :: UpToDate(db.workloads[w], MarkOf(mark, w), now)
    {
      ghost var was := Books();
      var owing := QueryOwing(now);
      n, ids, lists := 0, owing, [];
      for k := 0 to |owing|
        invariant IsPass(db, was, owing, lists, k, rates, fails, now, Books()) && n == Successes(owing, fails, k)
      {
        var w := owing[k];
        ghost var mid, gs := Books(), [];
        if fails(w) {
          gs := ListingExists(Attached(db, w));
        } else {
          gs := MeterWorkload(w, rates, now);
          n := n + 1;
        }
        NextInPass(db, was, owing, lists, k, rates, fails, now, mid, gs);
        lists := lists + [gs];
      }
      PassCatchesUp(db, was, owing, lists, rates, fails, now, Books());
      SuccessesCounted(owing, Owing(db, was.mark, now), fails);
    }

    method AddCredit(org: OrgId, amount: real, now: Time, monthStart: Time) returns (r: Result<real>)
      modifies `ledger
      ensures amount <= 0.0 ==> r == Err(InvalidRequest) && ledger == old(ledger)
      ensures amount > 0.0 ==>
              ledger == Post(old(ledger), org, amount, None, now) && r == Ok(Latest(old(ledger), org) + amount)
    {
      if amount <= 0.0 { return Err(InvalidRequest); }
      PostLedger(org, amount, None, now);
      var sum := CreditSummary(org, monthStart);
      return Ok(sum.balance);
    }

    /** The aggregate over the organization's rows, in one scan. */
    method CreditSummary(org: OrgId, monthStart: Time) returns (s: Summary)
      ensures s == Summary(Latest(ledger, org), Granted(ledger, org), Spent(ledger, org),
              SpentSince(ledger, org, monthStart))
    {
      var balance, granted, spent, month := 0.0, 0.0, 0.0, 0.0;
      for i := 0 to |ledger|
        invariant balance == Latest(ledger[..i], org)
        invariant granted == Granted(ledger[..i], org) && spent == Spent(ledger[..i], org)
        invariant month == SpentSince(ledger[..i], org, monthStart)
      {
        assert ledger[..i + 1][..i] == ledger[..i];
        var e := ledger[i];
        if e.org == org {
          balance := e.balance;
          if e.delta > 0.0 { granted := granted + e.delta; }
          if e.delta < 0.0 { spent := spent - e.delta; }
          if e.delta < 0.0 && e.at >= monthStart { month := month - e.delta; }
        }
      }
      assert ledger[..|ledger|] == ledger;
      return Summary(balance, granted, spent, month);
    }
  }

  lemma ListingKnown(db: Db, w: WorkloadId, gs: seq<GpuId>)
    requires IsListing(gs, Attached(db, w))
    ensures Known(db, gs)
  {
    assert forall k | 0 <= k < |gs| :: gs[k] in gs;
  }

  /** Calls to come do not change the calls made. */
  lemma {:induction false} PassPrefix(db: Db, acc: Accounts, ids: seq<WorkloadId>, lists: seq<seq<GpuId>>,
                                      gs: seq<GpuId>,
                                      rates: Rates, fails: WorkloadId -> bool, now: Time, k: nat)
    requires k <= |ids| && k <= |lists| && Known(db, gs) && AllKnown(db, lists)
    ensures Pass(db, acc, ids, lists + [gs], rates, fails, now, k) == Pass(db, acc, ids, lists, rates, fails, now, k)
    decreases k
  {
    if k > 0 { PassPrefix(db, acc, ids, lists, gs, rates, fails, now, k - 1); }
  }

  /** The first k calls are made: `lists` is what each saw, `after` what they left. */
  ghost predicate IsPass(db: Db, before: Accounts, ids: seq<WorkloadId>, lists: seq<seq<GpuId>>, k: nat,
                         rates: Rates, fails: WorkloadId -> bool, now: Time, after: Accounts) {
    && |lists| == k <= |ids| && AllKnown(db, lists)
    && (forall i | 0 <= i < k :: IsListing(lists[i], Attached(db, ids[i])))
    && after == Pass(db, before, ids, lists, rates, fails, now, k)
  }

  lemma NextInPass(db: Db, before: Accounts, ids: seq<WorkloadId>, lists: seq<seq<GpuId>>, k: nat,
                   rates: Rates, fails: WorkloadId -> bool, now: Time, mid: Accounts, gs: seq<GpuId>)
    requires IsPass(db, before, ids, lists, k, rates, fails, now, mid) && k < |ids| &&
             IsListing(gs, Attached(db, ids[k]))
    ensures Known(db, gs)
    ensures IsPass(db, before, ids, lists + [gs], k + 1, rates, fails, now,
                   if fails(ids[k]) then mid else Metered(db, mid, ids[k], gs, rates, now))
  {
    ListingKnown(db, ids[k], gs);
    PassPrefix(db, before, ids, lists, gs, rates, fails, now, k);
  }

  lemma PassCatchesUp(db: Db, before: Accounts, ids: seq<WorkloadId>, lists: seq<seq<GpuId>>,
                      rates: Rates, fails: WorkloadId -> bool, now: Time, after: Accounts)
    requires IsListing(ids, Owing(db, before.mark, now))
    requires IsPass(db, before, ids, lists, |ids|, rates, fails, now, after)
    ensures forall w | w in db.workloads && !fails(w) :: UpToDate(db.workloads[w], MarkOf(after.mark, w), now)
  {
    forall w | w in db.workloads && !fails(w) ensures UpToDate(db.workloads[w], MarkOf(after.mark, w), now) {
      PassUpToDate(db, before, ids, lists, rates, fails, now, |ids|, w);
      assert ids[..|ids|] == ids;
    }
  }

  function Successes(ids: seq<WorkloadId>, fails: WorkloadId -> bool, k: nat): nat
    requires k <= |ids|
  {
    if k == 0 then 0 else Successes(ids, fails, k - 1) + if fails(ids[k - 1]) then 0 else 1
  }

  lemma {:induction false} SuccessesOf(ids: seq<WorkloadId>, fails: WorkloadId -> bool, k: nat)
    requires k <= |ids| && forall i, j | 0 <= i < j < |ids| :: ids[i] != ids[j]
    ensures Successes(ids, fails, k) == |set w | w in ids[..k] && !fails(w)|
    decreases k
  {
    var good := set w | w in ids[..k] && !fails(w);
    if k == 0 {
      assert good == {};
    } else {
      SuccessesOf(ids, fails, k - 1);
      var w := ids[k - 1];
      assert ids[..k] == ids[..k - 1] + [w];
      assert good == (set v | v in ids[..k - 1] && !fails(v)) + if fails(w) then {} else {w};
    }
  }

  lemma SuccessesCounted(ids: seq<WorkloadId>, owing: set<WorkloadId>, fails: WorkloadId -> bool)
    requires IsListing(ids, owing)
    ensures Successes(ids, fails, |ids|) == |set w | w in owing && !fails(w)|
  {
    SuccessesOf(ids, fails, |ids|);
    assert ids[..|ids|] == ids;
    assert (set w | w in ids && !fails(w)) == (set w | w in owing && !fails(w));
  }
}
