/** Reservations: bookings of a number of GPUs of a model over a window, checked against the
    fleet by the sum of all overlapping bookings. */
module Reservations {
  import opened Tables
  import Like

  datatype Booking = Booking(org: OrgId, model: string, count: int, start: Time, end: Time, cancelled: bool)

  /** One GPU of the inventory. */
  datatype Unit = Unit(org: OrgId, model: string)

  datatype BookError = InvalidParameters | Overbooked

  // ----- the two queries of a booking

  predicate CountsFor(u: Unit, org: OrgId, model: string) {
    u.org == org && (model == "any" || Like.IMatches("%" + model + "%", u.model))
  }

  /** totalGPUs. */
  function Total(fleet: seq<Unit>, org: OrgId, model: string): nat {
    if fleet == [] then 0
    else Total(fleet[..|fleet| - 1], org, model) + if CountsFor(fleet[|fleet| - 1], org, model) then 1 else 0
  }

  predicate Live(b: Booking, org: OrgId, model: string) { b.org == org && !b.cancelled && b.model == model }

  predicate Overlaps(b: Booking, start: Time, end: Time) { b.start < end && b.end > start }

  /** peakReserved: the sum of everything that overlaps the window. */
  function Overlapping(rows: seq<Booking>, org: OrgId, model: string, start: Time, end: Time): int {
    if rows == [] then 0
    else
      var b := rows[|rows| - 1];
      Overlapping(rows[..|rows| - 1], org, model, start, end) +
      if Live(b, org, model) && Overlaps(b, start, end) then b.count else 0
  }

  /** What is really reserved at one instant. */
  function ReservedAt(rows: seq<Booking>, org: OrgId, model: string, t: Time): int {
    if rows == [] then 0
    else
      var b := rows[|rows| - 1];
      ReservedAt(rows[..|rows| - 1], org, model, t) + if Live(b, org, model) && b.start <= t < b.end then b.count else 0
  }

  /** The status shown for a booking. */
  datatype Status = Cancelled | Expired | Upcoming | Active

  function LiveStatus(b: Booking, now: Time): Status {
    if b.cancelled then Cancelled
    else if now > b.end then Status.Expired
    else if now < b.start then Upcoming
    else Active
  }

  /** Every booking is in one of four states, told by its cancellation and by the two ends of its window. */
  lemma StatusTells(b: Booking, now: Time)
    requires b.start < b.end
    ensures LiveStatus(b, now) == Cancelled <==> b.cancelled
    ensures LiveStatus(b, now) == Upcoming <==> !b.cancelled && now < b.start
    ensures LiveStatus(b, now) == Active <==> !b.cancelled && b.start <= now <= b.end
    ensures LiveStatus(b, now) == Status.Expired <==> !b.cancelled && b.end < now
  {
  }

  predicate Valid(count: int, start: Time, end: Time) { count > 0 && end > start }

  predicate Accepts(rows: seq<Booking>, fleet: seq<Unit>, org: OrgId, model: string, count: int, start: Time,
                    end: Time) {
    Valid(count, start, end) && Overlapping(rows, org, model, start, end) + count <= Total(fleet, org, model)
  }

  function Create(rows: seq<Booking>, fleet: seq<Unit>, org: OrgId, model: string, count: int, start: Time,
                  end: Time): seq<Booking> {
    if Accepts(rows, fleet, org, model, count, start, end)
    then rows + [Booking(org, model, count, start, end, false)] else rows
  }

  /** A booking is named by its row; a foreign or unknown id changes nothing. */
  function Cancel(rows: seq<Booking>, org: OrgId, id: nat): seq<Booking> {
    if id < |rows| && rows[id].org == org then rows[id := rows[id].(cancelled := true)] else rows
  }

  /** A unit counts for its own organization, for any model or one whose text contains the request. */
  lemma CountsForText(u: Unit, org: OrgId, model: string)
    requires Like.IsPlain(model)
    ensures CountsFor(u, org, model) <==>
            u.org == org && (model == "any" || Like.Contains(Like.Fold(u.model), Like.Fold(model)))
  {
    Like.PlainSearch(model, u.model);
  }

  /** The organization's units whose model contains the request. */
  function UnitsFor(fleet: seq<Unit>, org: OrgId, model: string): set<int> {
    set i | 0 <= i < |fleet| && fleet[i].org == org &&
            (model == "any" || Like.Contains(Like.Fold(fleet[i].model), Like.Fold(model)))
  }

  lemma UnitsNext(fleet: seq<Unit>, org: OrgId, model: string)
    requires fleet != []
    ensures var n := |fleet| - 1;
            var wanted := fleet[n].org == org &&
                          (model == "any" || Like.Contains(Like.Fold(fleet[n].model), Like.Fold(model)));
            n !in UnitsFor(fleet[..n], org, model) &&
            UnitsFor(fleet, org, model) == UnitsFor(fleet[..n], org, model) + if wanted then {n} else {}
  {
    var n := |fleet| - 1;
    forall i | 0 <= i < n ensures i in UnitsFor(fleet, org, model) <==> i in UnitsFor(fleet[..n], org, model) {
      assert fleet[..n][i] == fleet[i];
    }
  }

  /** The fleet total is their number. */
  lemma {:induction false} TotalCounts(fleet: seq<Unit>, org: OrgId, model: string)
    requires Like.IsPlain(model)
    ensures Total(fleet, org, model) == |UnitsFor(fleet, org, model)|
  {
    if fleet == [] {
      assert UnitsFor(fleet, org, model) == {};
    } else {
      var n := |fleet| - 1;
      TotalCounts(fleet[..n], org, model);
      CountsForText(fleet[n], org, model);
      UnitsNext(fleet, org, model);
    }
  }

  predicate During(start: Time, end: Time, t: Time) { start <= t < end }

  /** Two windows overlap exactly when they share an instant. */
  lemma OverlapIsShared(b: Booking, start: Time, end: Time)
    requires b.start < b.end && start < end
    ensures Overlaps(b, start, end) <==> exists t :: During(b.start, b.end, t) && During(start, end, t)
  {
    if Overlaps(b, start, end) {
      var t := if b.start >= start then b.start else start;
      assert During(b.start, b.end, t) && During(start, end, t);
    }
  }

  /** What other organizations own or book never changes an answer. */
  lemma ForeignersDoNotMatter(rows: seq<Booking>, fleet: seq<Unit>, org: OrgId, model: string, count: int, start: Time,
                              end: Time)
    ensures Accepts(rows, fleet, org, model, count, start, end) <==>
            Accepts(OwnRows(rows, org), OwnUnits(fleet, org), org, model, count, start, end)
  {
    OwnUnitsCount(fleet, org, model);
    OwnRowsCount(rows, org, model, start, end);
  }

  lemma {:induction false} OwnUnitsCount(fleet: seq<Unit>, org: OrgId, model: string)
    ensures Total(fleet, org, model) == Total(OwnUnits(fleet, org), org, model)
  {
    if fleet != [] {
      var front, own := OwnUnits(fleet[..|fleet| - 1], org), OwnUnits(fleet, org);
      OwnUnitsCount(fleet[..|fleet| - 1], org, model);
      if fleet[|fleet| - 1].org == org { assert own[..|own| - 1] == front; } else { assert own == front; }
    }
  }

  lemma {:induction false} OwnRowsCount(rows: seq<Booking>, org: OrgId, model: string, start: Time, end: Time)
    ensures Overlapping(rows, org, model, start, end) == Overlapping(OwnRows(rows, org), org, model, start, end)
  {
    if rows != [] {
      var front, own := OwnRows(rows[..|rows| - 1], org), OwnRows(rows, org);
      OwnRowsCount(rows[..|rows| - 1], org, model, start, end);
      if rows[|rows| - 1].org == org { assert own[..|own| - 1] == front; } else { assert own == front; }
    }
  }

  function OwnUnits(fleet: seq<Unit>, org: OrgId): seq<Unit> {
    if fleet == [] then []
    else OwnUnits(fleet[..|fleet| - 1], org) + if fleet[|fleet| - 1].org == org then [fleet[|fleet| - 1]] else []
  }

  function OwnRows(rows: seq<Booking>, org: OrgId): seq<Booking> {
    if rows == [] then []
    else OwnRows(rows[..|rows| - 1], org) + if rows[|rows| - 1].org == org then [rows[|rows| - 1]] else []
  }

  class Service {
    var rows: seq<Booking>
    var fleet: seq<Unit>

    constructor (units: seq<Unit>)
      ensures rows == [] && fleet == units
    {
      rows, fleet := [], units;
    }

    method CreateReservation(org: OrgId, model: string, count: int, start: Time, end: Time)
      returns (id: nat, error: Option<BookError>)
      modifies `rows
      ensures rows == Create(old(rows), fleet, org, model, count, start, end)
      ensures error == if !Valid(count, start, end) then Some(InvalidParameters)
                       else if Accepts(old(rows), fleet, org, model, count, start, end) then None else Some(Overbooked)
      ensures error.None? ==> id == |old(rows)| && rows == old(rows) + [Booking(org, model, count, start, end, false)]
      ensures error.Some? ==> rows == old(rows)
    {
      if count <= 0 || end <= start { return 0, Some(InvalidParameters); }
      var total := 0;
      for i := 0 to |fleet|
        invariant total == Total(fleet[..i], org, model)
      {
        assert fleet[..i + 1][..i] == fleet[..i];
        if CountsFor(fleet[i], org, model) { total := total + 1; }
      }
      var already := 0;
      for i := 0 to |rows|
        invariant already == Overlapping(rows[..i], org, model, start, end)
      {
        assert rows[..i + 1][..i] == rows[..i];
        var b := rows[i];
        if b.org == org && !b.cancelled && b.model == model && b.start < end && b.end > start {
          already := already + b.count;
        }
      }
      assert fleet[..|fleet|] == fleet && rows[..|rows|] == rows;
      if already + count > total { return 0, Some(Overbooked); }
      rows := rows + [Booking(org, model, count, start, end, false)];
      return |rows| - 1, None;
    }

    method CancelReservation(org: OrgId, id: nat)
      modifies `rows
      ensures rows == Cancel(old(rows), org, id)
    {
      if id < |rows| && rows[id].org == org { rows := rows[id := rows[id].(cancelled := true)]; }
    }
  }

  // ----- histories

  datatype Op =
    | Book(org: OrgId, model: string, count: int, start: Time, end: Time)
    | Drop(org: OrgId, id: nat)
    | Fleet(fleet: seq<Unit>)

  datatype State = State(rows: seq<Booking>, fleet: seq<Unit>)

  function After(ops: seq<Op>, n: nat): State
    requires n <= |ops|
  {
    if n == 0 then State([], [])
    else
      var s := After(ops, n - 1);
      match ops[n - 1]
      case Book(org, model, count, start, end) => s.(rows := Create(s.rows, s.fleet, org, model, count, start, end))
      case Drop(org, id) => s.(rows := Cancel(s.rows, org, id))
      case Fleet(fleet) => s.(fleet := fleet)
  }

  /** The most GPUs counted for a model at any moment of the history so far. */
  function Most(ops: seq<Op>, n: nat, org: OrgId, model: string): nat
    requires n <= |ops|
  {
    var now := Total(After(ops, n).fleet, org, model);
    if n == 0 then now
    else
      var before := Most(ops, n - 1, org, model);
      if before >= now then before else now
  }

  ghost predicate Positive(rows: seq<Booking>) {
    forall i | 0 <= i < |rows| :: rows[i].count > 0 && rows[i].start < rows[i].end
  }

  lemma {:induction false} StaysPositive(ops: seq<Op>, n: nat)
    requires n <= |ops|
    ensures Positive(After(ops, n).rows)
    decreases n
  {
    if n > 0 { StaysPositive(ops, n - 1); }
  }

  /** The overlap sum bounds what is reserved at every instant of the window: the true peak. */
  lemma {:induction false} SumBoundsPeak(rows: seq<Booking>, org: OrgId, model: string, start: Time, end: Time, t: Time)
    requires Positive(rows) && start <= t < end
    ensures ReservedAt(rows, org, model, t) <= Overlapping(rows, org, model, start, end)
  {
    if rows != [] { SumBoundsPeak(rows[..|rows| - 1], org, model, start, end, t); }
  }

  lemma ReservedAppend(rows: seq<Booking>, b: Booking, org: OrgId, model: string, t: Time)
    ensures ReservedAt(rows + [b], org, model, t) ==
            ReservedAt(rows, org, model, t) + if Live(b, org, model) && b.start <= t < b.end then b.count else 0
  {
    assert (rows + [b])[..|rows|] == rows;
  }

  /** Cancelling takes the booking out of every instant it covered. */
  lemma {:induction false} ReservedCancel(rows: seq<Booking>, id: nat, org: OrgId, model: string, t: Time)
    requires id < |rows|
    ensures var b := rows[id];
            ReservedAt(rows[id := b.(cancelled := true)], org, model, t) ==
            ReservedAt(rows, org, model, t) - if Live(b, org, model) && b.start <= t < b.end then b.count else 0
  {
    var n := |rows| - 1;
    var after := rows[id := rows[id].(cancelled := true)];
    if id < n {
      ReservedCancel(rows[..n], id, org, model, t);
      assert after[..n] == rows[..n][id := rows[id].(cancelled := true)];
    } else {
      assert after[..n] == rows[..n];
    }
  }

  /** A booking goes in only where there is room for it at every instant. */
  lemma BookFits(s: State, o: OrgId, m: string, count: int, start: Time, end: Time, org: OrgId, model: string, t: Time)
    requires Positive(s.rows)
    ensures var rows := Create(s.rows, s.fleet, o, m, count, start, end);
            ReservedAt(rows, org, model, t) == ReservedAt(s.rows, org, model, t) ||
            ReservedAt(rows, org, model, t) <= Total(s.fleet, org, model)
  {
    if Accepts(s.rows, s.fleet, o, m, count, start, end) {
      ReservedAppend(s.rows, Booking(o, m, count, start, end, false), org, model, t);
      if o == org && m == model && start <= t < end { SumBoundsPeak(s.rows, org, model, start, end, t); }
    }
  }

  /** Cancelling frees exactly the booking's own count, at exactly the instants it covered; a
      foreign or unknown id frees nothing. */
  lemma CancelFrees(rows: seq<Booking>, o: OrgId, id: nat, org: OrgId, model: string, t: Time)
    ensures ReservedAt(Cancel(rows, o, id), org, model, t) ==
            ReservedAt(rows, org, model, t) -
            if id < |rows| && rows[id].org == o && Live(rows[id], org, model) && rows[id].start <= t < rows[id].end
            then rows[id].count else 0
  {
    if id < |rows| { ReservedCancel(rows, id, org, model, t); }
  }

  /** No instant is overbooked: whatever is booked, cancelled, added or taken away, at every instant
      the live bookings naming one model total at most the largest fleet of that model so far. */
  lemma {:induction false} NeverBeyondTheMost(ops: seq<Op>, n: nat, org: OrgId, model: string, t: Time)
    requires n <= |ops|
    ensures ReservedAt(After(ops, n).rows, org, model, t) <= Most(ops, n, org, model)
    decreases n
  {
    if n > 0 {
      NeverBeyondTheMost(ops, n - 1, org, model, t);
      StaysPositive(ops, n - 1);
      var s := After(ops, n - 1);
      match ops[n - 1]
      case Book(o, m, count, start, end) => BookFits(s, o, m, count, start, end, org, model, t);
      case Drop(o, id) => CancelFrees(s.rows, o, id, org, model, t);
      case Fleet(_) =>
    }
  }

  /** The fleet of a model never shrinks. */
  ghost predicate NeverShrinks(ops: seq<Op>, n: nat, org: OrgId, model: string)
    requires n <= |ops|
  {
    forall k | 0 <= k < n :: GrowsAt(ops, k, org, model)
  }

  ghost predicate GrowsAt(ops: seq<Op>, k: nat, org: OrgId, model: string)
    requires k < |ops|
  {
    Total(After(ops, k).fleet, org, model) <= Total(After(ops, k + 1).fleet, org, model)
  }

  lemma {:induction false} MostIsNow(ops: seq<Op>, n: nat, org: OrgId, model: string)
    requires n <= |ops| && NeverShrinks(ops, n, org, model)
    ensures Most(ops, n, org, model) == Total(After(ops, n).fleet, org, model)
    decreases n
  {
    if n > 0 {
      MostIsNow(ops, n - 1, org, model);
      assert GrowsAt(ops, n - 1, org, model);
    }
  }

  /** With a fleet that does not shrink, the live bookings of a model fit the fleet at every instant. */
  lemma NoInstantOverbooked(ops: seq<Op>, n: nat, org: OrgId, model: string, t: Time)
    requires n <= |ops| && NeverShrinks(ops, n, org, model)
    ensures ReservedAt(After(ops, n).rows, org, model, t) <= Total(After(ops, n).fleet, org, model)
  {
    NeverBeyondTheMost(ops, n, org, model, t);
    MostIsNow(ops, n, org, model);
  }

  // ----- the true peak, and what fits

  /** The sweep line over a window: what is reserved at its start and wherever a live booking starts. */
  function PeakOver(starts: seq<Booking>, rows: seq<Booking>, org: OrgId, model: string, start: Time, end: Time): int {
    if starts == [] then ReservedAt(rows, org, model, start)
    else
      var peak, b := PeakOver(starts[..|starts| - 1], rows, org, model, start, end), starts[|starts| - 1];
      if Live(b, org, model) && start < b.start < end && ReservedAt(rows, org, model, b.start) > peak
      then ReservedAt(rows, org, model, b.start) else peak
  }

  function Peak(rows: seq<Booking>, org: OrgId, model: string, start: Time, end: Time): int {
    PeakOver(rows, rows, org, model, start, end)
  }

  lemma {:induction false} PeakReached(starts: seq<Booking>, rows: seq<Booking>, org: OrgId, model: string, start: Time,
                                       end: Time) returns (t: Time)
    requires start < end
    ensures start <= t < end && ReservedAt(rows, org, model, t) == PeakOver(starts, rows, org, model, start, end)
  {
    t := start;
    if starts != [] {
      t := PeakReached(starts[..|starts| - 1], rows, org, model, start, end);
      var b := starts[|starts| - 1];
      if Live(b, org, model) && start < b.start < end &&
         ReservedAt(rows, org, model, b.start) > ReservedAt(rows, org, model, t) { t := b.start; }
    }
  }

  lemma {:induction false} PeakCovers(starts: seq<Booking>, rows: seq<Booking>, org: OrgId, model: string, start: Time,
                                      end: Time, i: nat)
    requires i < |starts|
    ensures ReservedAt(rows, org, model, start) <= PeakOver(starts, rows, org, model, start, end)
    ensures Live(starts[i], org, model) && start < starts[i].start < end ==>
              ReservedAt(rows, org, model, starts[i].start) <= PeakOver(starts, rows, org, model, start, end)
    decreases |starts|
  {
    var n := |starts| - 1;
    if i < n { PeakCovers(starts[..n], rows, org, model, start, end, i); }
    else if n > 0 { PeakCovers(starts[..n], rows, org, model, start, end, 0); }
    else { assert starts[..n] == []; }
  }

  /** The last instant from start to t at which a live booking starts, or the start itself. */
  function LatestStart(rows: seq<Booking>, org: OrgId, model: string, start: Time, t: Time): Time {
    if rows == [] then start
    else
      var s, b := LatestStart(rows[..|rows| - 1], org, model, start, t), rows[|rows| - 1];
      if Live(b, org, model) && s < b.start <= t then b.start else s
  }

  lemma {:induction false} LatestStartIsOne(rows: seq<Booking>, org: OrgId, model: string, start: Time, t: Time)
    requires start <= t
    ensures var s := LatestStart(rows, org, model, start, t);
            start <= s <= t &&
            (s == start || exists i :: 0 <= i < |rows| && Live(rows[i], org, model) && rows[i].start == s) &&
            forall i | 0 <= i < |rows| :: Live(rows[i], org, model) && rows[i].start <= t ==> rows[i].start <= s
  {
    if rows != [] {
      var n := |rows| - 1;
      LatestStartIsOne(rows[..n], org, model, start, t);
      var s := LatestStart(rows[..n], org, model, start, t);
      if s != start {
        var i :| 0 <= i < n && Live(rows[..n][i], org, model) && rows[..n][i].start == s;
        assert Live(rows[i], org, model) && rows[i].start == s;
      }
      forall i | 0 <= i < n && Live(rows[i], org, model) && rows[i].start <= t ensures rows[i].start <= s {
        assert rows[..n][i] == rows[i];
      }
    }
  }

  /** When nothing starts after s up to t, what is reserved at t was reserved at s. */
  lemma {:induction false} NothingStarted(rows: seq<Booking>, org: OrgId, model: string, s: Time, t: Time)
    requires Positive(rows) && s <= t
    requires forall i | 0 <= i < |rows| :: Live(rows[i], org, model) && rows[i].start <= t ==> rows[i].start <= s
    ensures ReservedAt(rows, org, model, t) <= ReservedAt(rows, org, model, s)
  {
    if rows != [] {
      var n := |rows| - 1;
      forall i | 0 <= i < n && Live(rows[..n][i], org, model) && rows[..n][i].start <= t
        ensures rows[..n][i].start <= s
      {
        assert rows[..n][i] == rows[i];
      }
      NothingStarted(rows[..n], org, model, s, t);
    }
  }

  /** The peak is exact: no instant of the window has more reserved, and some instant has as much. */
  lemma PeakIsExact(rows: seq<Booking>, org: OrgId, model: string, start: Time, end: Time)
    requires Positive(rows) && start < end
    ensures forall t | start <= t < end :: ReservedAt(rows, org, model, t) <= Peak(rows, org, model, start, end)
    ensures exists t :: start <= t < end && ReservedAt(rows, org, model, t) == Peak(rows, org, model, start, end)
  {
    var at := PeakReached(rows, rows, org, model, start, end);
    forall t | start <= t < end ensures ReservedAt(rows, org, model, t) <= Peak(rows, org, model, start, end) {
      var s := LatestStart(rows, org, model, start, t);
      LatestStartIsOne(rows, org, model, start, t);
      NothingStarted(rows, org, model, s, t);
      if s != start {
        var i :| 0 <= i < |rows| && Live(rows[i], org, model) && rows[i].start == s;
        PeakCovers(rows, rows, org, model, start, end, i);
      } else if rows != [] {
        PeakCovers(rows, rows, org, model, start, end, 0);
      }
    }
  }

  ghost predicate FitsEverywhere(rows: seq<Booking>, org: OrgId, model: string, total: int) {
    forall t :: ReservedAt(rows, org, model, t) <= total
  }

  /** The exact condition for an insertion, whatever its check saw: a table that fits at every instant
      still does if and only if the peak over the new window leaves room for the new booking. */
  lemma InsertFitsExactly(rows: seq<Booking>, org: OrgId, model: string, count: int, start: Time, end: Time, total: int)
    requires Positive(rows) && Valid(count, start, end) && FitsEverywhere(rows, org, model, total)
    ensures FitsEverywhere(rows + [Booking(org, model, count, start, end, false)], org, model, total) <==>
            Peak(rows, org, model, start, end) + count <= total
  {
    var b := Booking(org, model, count, start, end, false);
    PeakIsExact(rows, org, model, start, end);
    forall t ensures ReservedAt(rows + [b], org, model, t) ==
                     ReservedAt(rows, org, model, t) + if start <= t < end then count else 0
    {
      ReservedAppend(rows, b, org, model, t);
    }
    var at :| start <= at < end && ReservedAt(rows, org, model, at) == Peak(rows, org, model, start, end);
    assert ReservedAt(rows + [b], org, model, at) == Peak(rows, org, model, start, end) + count;
  }

  /** Bookings that both check before either inserts: each is accepted, and together they fit if and
      only if the second still has room at the peak that the first one leaves. */
  lemma CrossedBookingsFit(rows: seq<Booking>, fleet: seq<Unit>, a: Booking, b: Booking)
    requires Positive(rows) && FitsEverywhere(rows, a.org, a.model, Total(fleet, a.org, a.model))
    requires a.org == b.org && a.model == b.model && !a.cancelled && !b.cancelled
    requires Accepts(rows, fleet, a.org, a.model, a.count, a.start, a.end)
    requires Accepts(rows, fleet, b.org, b.model, b.count, b.start, b.end)
    ensures FitsEverywhere(rows + [a], a.org, a.model, Total(fleet, a.org, a.model))
    ensures FitsEverywhere(rows + [a] + [b], a.org, a.model, Total(fleet, a.org, a.model)) <==>
            Peak(rows + [a], b.org, b.model, b.start, b.end) + b.count <= Total(fleet, b.org, b.model)
  {
    var total := Total(fleet, a.org, a.model);
    PeakIsExact(rows, a.org, a.model, a.start, a.end);
    var at :| a.start <= at < a.end &&
      ReservedAt(rows, a.org, a.model, at) == Peak(rows, a.org, a.model, a.start, a.end);
    SumBoundsPeak(rows, a.org, a.model, a.start, a.end, at);
    InsertFitsExactly(rows, a.org, a.model, a.count, a.start, a.end, total);
    assert a == Booking(a.org, a.model, a.count, a.start, a.end, false);
    assert b == Booking(b.org, b.model, b.count, b.start, b.end, false);
    InsertFitsExactly(rows + [a], b.org, b.model, b.count, b.start, b.end, total);
  }

  // ----- where the sum and the status differ from the peak

  /** Every live booking that overlaps the window covers this instant. */
  ghost predicate AllCover(rows: seq<Booking>, org: OrgId, model: string, start: Time, end: Time, t: Time) {
    forall i | 0 <= i < |rows| && Live(rows[i], org, model) && Overlaps(rows[i], start, end) ::
      rows[i].start <= t < rows[i].end
  }

  lemma {:induction false} SumAtInstant(rows: seq<Booking>, org: OrgId, model: string, start: Time, end: Time, t: Time)
    requires Positive(rows) && start <= t < end
    ensures Overlapping(rows, org, model, start, end) == ReservedAt(rows, org, model, t) <==>
            AllCover(rows, org, model, start, end, t)
  {
    if rows != [] {
      var n := |rows| - 1;
      SumAtInstant(rows[..n], org, model, start, end, t);
      SumBoundsPeak(rows[..n], org, model, start, end, t);
      assert AllCover(rows, org, model, start, end, t) ==> AllCover(rows[..n], org, model, start, end, t);
      assert forall i | 0 <= i < n :: rows[i] == rows[..n][i];
    }
  }

  /** The sum never falls short of the peak, and is the peak if and only if all live bookings that overlap the
      window share an instant of it.  Otherwise the check may refuse what would fit. */
  lemma SumIsTightExactly(rows: seq<Booking>, org: OrgId, model: string, start: Time, end: Time)
    requires Positive(rows) && start < end
    ensures Peak(rows, org, model, start, end) <= Overlapping(rows, org, model, start, end)
    ensures Overlapping(rows, org, model, start, end) == Peak(rows, org, model, start, end) <==>
            exists t :: start <= t < end && AllCover(rows, org, model, start, end, t)
  {
    PeakIsExact(rows, org, model, start, end);
    forall t | start <= t < end
      ensures ReservedAt(rows, org, model, t) <= Overlapping(rows, org, model, start, end)
      ensures Overlapping(rows, org, model, start, end) == ReservedAt(rows, org, model, t) <==>
              AllCover(rows, org, model, start, end, t)
    {
      SumBoundsPeak(rows, org, model, start, end, t);
      SumAtInstant(rows, org, model, start, end, t);
    }
  }

  /** For instance, the sum refuses a booking that the true peak would allow. */
  lemma SumIsNotTight(unit: Unit, model: string)
    requires CountsFor(unit, unit.org, model)
    ensures var rows := [Booking(unit.org, model, 1, 0, 10, false), Booking(unit.org, model, 1, 10, 20, false)];
            !Accepts(rows, [unit, unit], unit.org, model, 1, 0, 20) &&
            forall t :: ReservedAt(rows, unit.org, model, t) + 1 <= Total([unit, unit], unit.org, model)
  {
    var a, b := Booking(unit.org, model, 1, 0, 10, false), Booking(unit.org, model, 1, 10, 20, false);
    assert [a, b][..1] == [a] && [a][..0] == [];
    assert [unit, unit][..1] == [unit] && [unit][..0] == [];
    assert Overlapping([a], unit.org, model, 0, 20) == 1 && Overlapping([a, b], unit.org, model, 0, 20) == 2;
    assert Total([unit], unit.org, model) == 1;
    forall t ensures ReservedAt([a, b], unit.org, model, t) + 1 <= Total([unit, unit], unit.org, model) {
      assert ReservedAt([a], unit.org, model, t) == if 0 <= t < 10 then 1 else 0;
    }
  }

  /** What is shown as active at an instant, and what ends at it. */
  function ShownActive(rows: seq<Booking>, org: OrgId, model: string, t: Time): int {
    if rows == [] then 0
    else
      var b := rows[|rows| - 1];
      ShownActive(rows[..|rows| - 1], org, model, t) +
      if b.org == org && b.model == model && LiveStatus(b, t).Active? then b.count else 0
  }

  function EndingAt(rows: seq<Booking>, org: OrgId, model: string, t: Time): int {
    if rows == [] then 0
    else
      var b := rows[|rows| - 1];
      EndingAt(rows[..|rows| - 1], org, model, t) + if Live(b, org, model) && b.end == t then b.count else 0
  }

  /** The status column counts a booking one instant too long: what it shows as active is what is
      reserved plus what ends at that very instant. */
  lemma {:induction false} ShownCountsTheEnd(rows: seq<Booking>, org: OrgId, model: string, t: Time)
    requires Positive(rows)
    ensures ShownActive(rows, org, model, t) == ReservedAt(rows, org, model, t) + EndingAt(rows, org, model, t)
  {
    if rows != [] { ShownCountsTheEnd(rows[..|rows| - 1], org, model, t); }
  }

  /** An instance: two bookings of the last GPU that both check before either inserts are both
      accepted, and the window is overbooked. */
  lemma CrossedBookingsOverbook(unit: Unit, model: string, start: Time, end: Time, t: Time)
    requires CountsFor(unit, unit.org, model) && start <= t < end
    ensures Accepts([], [unit], unit.org, model, 1, start, end)
    ensures var b := Booking(unit.org, model, 1, start, end, false);
            ReservedAt([b, b], unit.org, model, t) > Total([unit], unit.org, model)
  {
    var b := Booking(unit.org, model, 1, start, end, false);
    assert [unit][..0] == [] && [b, b][..1] == [b] && [b][..0] == [];
    assert ReservedAt([b], unit.org, model, t) == 1;
  }
}
