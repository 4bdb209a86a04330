/** The rows of the command outbox: what each delivery event does to one row, and how often
    a row can be attempted before its deadline. */
module Outbox {
  import opened Tables

  /** How long a launch may stay undelivered. */
  const LAUNCH_DEADLINE: Time := 10 * MINUTE
  const CLAIM_LIMIT := 16

  function Min(a: int, b: int): int { if a <= b then a else b }

  function Pow2(n: nat): nat { if n == 0 then 1 else 2 * Pow2(n - 1) }

  function ResendBackoff(attempts: nat): (d: Time)
    ensures 15 * SECOND <= d <= 4 * MINUTE
  {
    assert Pow2(4) == 16 && Pow2(3) == 8 && Pow2(2) == 4 && Pow2(1) == 2;
    var d := 15 * SECOND * Pow2(Min(attempts, 4));
    if d > 4 * MINUTE then 4 * MINUTE else d
  }

  predicate Due(c: Command, node: NodeId, now: Time) {
    c.node == node && c.status.Open() && c.nextAttempt <= now
  }

  function MarkSent(c: Command, attempts: nat, now: Time): Command {
    c.(status := Sent, attempts := attempts + 1, nextAttempt := now + ResendBackoff(attempts))
  }

  function MarkAttemptFailed(c: Command, attempts: nat, now: Time): Command {
    c.(attempts := attempts + 1, nextAttempt := now + ResendBackoff(attempts))
  }

  function Ack(c: Command, ok: bool): Command {
    if c.status.Open() then c.(status := if ok then Acked else Rejected) else c
  }

  function Reconnect(c: Command, node: NodeId, now: Time): Command {
    if c.node == node && c.status.Open() then c.(nextAttempt := now) else c
  }

  /** What became of handing one claimed row to the agent's stream. */
  datatype Outcome = Malformed | SendFailed | Delivered

  function AfterSend(c: Command, attempts: nat, outcome: Outcome, now: Time): Command {
    match outcome
    case Malformed => Ack(c, false)
    case SendFailed => MarkAttemptFailed(c, attempts, now)
    case Delivered => MarkSent(c, attempts, now)
  }

  /** An answer settles an open row, as acknowledged exactly when it is positive; a row that is settled
      already ignores it. */
  lemma AnswerSettles(c: Command, ok: bool)
    ensures c.status in {Unsent, Sent} ==> Ack(c, ok) == c.(status := if ok then Acked else Rejected)
    ensures c.status !in {Unsent, Sent} ==> Ack(c, ok) == c
  {
  }

  /** A reconnect of its node makes an open row due at once and touches no other. */
  lemma ReconnectWrites(c: Command, node: NodeId, now: Time)
    ensures Reconnect(c, node, now) ==
            if c.node == node && c.status in {Unsent, Sent} then c.(nextAttempt := now) else c
  {
  }

  /** What a hand-over leaves on an open row: a malformed one is rejected for good, a delivered one is
      sent, a failed one stays as it was; both are due again after 15 s, doubling with each attempt up
      to 240 s. */
  lemma HandOverWrites(c: Command, outcome: Outcome, now: Time)
    requires c.status in {Unsent, Sent}
    ensures var wait := [15, 30, 60, 120, 240][if c.attempts <= 4 then c.attempts else 4] * SECOND;
            AfterSend(c, c.attempts, outcome, now) ==
              match outcome
              case Malformed => c.(status := Rejected)
              case SendFailed => c.(attempts := c.attempts + 1, nextAttempt := now + wait)
              case Delivered => c.(status := Sent, attempts := c.attempts + 1, nextAttempt := now + wait)
  {
    BackoffTable();
  }

  // ----- how often one row is attempted

  datatype RowEvent = Attempt(at: Time, outcome: Outcome) | Reconnected(at: Time) | Acknowledged(at: Time, ok: bool)

  function RowStep(c: Command, e: RowEvent): Command {
    match e
    case Attempt(at, outcome) => AfterSend(c, c.attempts, outcome, at)
    case Reconnected(at) => Reconnect(c, c.node, at)
    case Acknowledged(_, ok) => Ack(c, ok)
  }

  /** A history is possible when the clock never runs backwards and only due rows are attempted. */
  predicate Possible(c: Command, from: Time, history: seq<RowEvent>)
    decreases |history|
  {
    history == [] ||
    (var e := history[0];
     from <= e.at &&
     (e.Attempt? ==> Due(c, c.node, e.at)) &&
     Possible(RowStep(c, e), e.at, history[1..]))
  }

  function Attempts(history: seq<RowEvent>): nat {
    if history == [] then 0
    else (if history[0].Attempt? then 1 else 0) + Attempts(history[1..])
  }

  function Reconnects(history: seq<RowEvent>): nat {
    if history == [] then 0
    else (if history[0].Reconnected? then 1 else 0) + Reconnects(history[1..])
  }

  /** Time that must pass for k backed-off attempts in a row. */
  function Spread(k: int): Time {
    if k <= 0 then 0 else Spread(k - 1) + ResendBackoff(k - 1)
  }

  lemma BackoffTable()
    ensures ResendBackoff(0) == 15 * SECOND
    ensures ResendBackoff(1) == 30 * SECOND
    ensures ResendBackoff(2) == 60 * SECOND
    ensures ResendBackoff(3) == 120 * SECOND
    ensures forall k: nat :: k >= 4 ==> ResendBackoff(k) == 240 * SECOND
  {
    assert Pow2(4) == 16 && Pow2(3) == 8 && Pow2(2) == 4 && Pow2(1) == 2 && Pow2(0) == 1;
  }

  lemma {:induction false} BackoffGrows(a: nat, b: nat)
    requires a <= b
    ensures ResendBackoff(a) <= ResendBackoff(b)
  {
    assert Pow2(4) == 16 && Pow2(3) == 8 && Pow2(2) == 4 && Pow2(1) == 2 && Pow2(0) == 1;
  }

  lemma {:induction false} SpreadGrows(a: int, b: int)
    requires a <= b
    ensures Spread(a) <= Spread(b)
    decreases b - a
  {
    if a < b { SpreadGrows(a, b - 1); }
  }

  /** Six attempts fit in the deadline: after the sixth the next one is 705 s away. */
  lemma SixthBackoffMissesDeadline(k: int)
    requires Spread(k) <= LAUNCH_DEADLINE
    ensures k <= 5
  {
    BackoffTable();
    assert Spread(2) == 45 * SECOND;
    assert Spread(4) == 225 * SECOND;
    assert Spread(6) == 705 * SECOND;
    if k >= 6 { SpreadGrows(6, k); }
  }

  /** The pacing invariant, carried from a state already reached after n attempts and r reconnects. */
  lemma {:induction false} PacedFrom(c: Command, born: Time, from: Time, n: nat, r: nat, history: seq<RowEvent>)
    requires c.attempts == n
    requires from >= born + Spread(n - 1 - r)
    requires c.status.Open() ==> c.nextAttempt >= born + Spread(n - r)
    requires Possible(c, from, history)
    requires history != [] ==> history[|history| - 1].at <= born + LAUNCH_DEADLINE
    requires from <= born + LAUNCH_DEADLINE
    ensures n + Attempts(history) <= 6 + r + Reconnects(history)
    decreases |history|
  {
    if history == [] {
      SixthBackoffMissesDeadline(n - 1 - r);
    } else {
      var e, rest := history[0], history[1..];
      var c' := RowStep(c, e);
      BoundedByLast(c, from, history);
      match e {
        case Attempt(at, outcome) =>
          if n >= r { BackoffGrows(n - r, n); }
          SpreadGrows(n - 1 - r, n - r);
          if outcome.Malformed? {
            NoMoreAttempts(c', at, rest);
            SixthBackoffMissesDeadline(n - r);
          } else {
            PacedFrom(c', born, at, n + 1, r, rest);
          }
        case Reconnected(at) =>
          SpreadGrows(n - 2 - r, n - 1 - r);
          PacedFrom(c', born, at, n, r + 1, rest);
        case Acknowledged(at, ok) =>
          PacedFrom(c', born, at, n, r, rest);
      }
    }
  }

  lemma {:induction false} BoundedByLast(c: Command, from: Time, history: seq<RowEvent>)
    requires history != [] && Possible(c, from, history)
    ensures history[0].at <= history[|history| - 1].at
    decreases |history|
  {
    if |history| > 1 { BoundedByLast(RowStep(c, history[0]), history[0].at, history[1..]); }
  }

  /** A final row is never attempted again. */
  lemma {:induction false} NoMoreAttempts(c: Command, from: Time, history: seq<RowEvent>)
    requires !c.status.Open() && Possible(c, from, history)
    ensures Attempts(history) == 0
    decreases |history|
  {
    if history != [] { NoMoreAttempts(RowStep(c, history[0]), history[0].at, history[1..]); }
  }

  /** A launch is attempted at most 6 + r times within its 600 s deadline when its node
      reconnects r times, whatever the sends do and whenever the row is acknowledged. */
  lemma {:induction false} LaunchAttemptsBounded(c: Command, history: seq<RowEvent>)
    requires c.kind.LaunchCmd? && c.status == Unsent && c.attempts == 0
    requires c.nextAttempt == c.createdAt && c.deliverBy == Some(c.createdAt + LAUNCH_DEADLINE)
    requires Possible(c, c.createdAt, history)
    requires forall e | e in history :: e.at <= c.deliverBy.value
    ensures Attempts(history) <= 6 + Reconnects(history)
  {
    PacedFrom(c, c.createdAt, c.createdAt, 0, 0, history);
  }

  /** The bound is met: with no reconnect, six attempts do fit. */
  lemma SixAttemptsHappen(c: Command)
    requires c.status == Unsent && c.attempts == 0 && c.nextAttempt == c.createdAt
    ensures exists history: seq<RowEvent> :: Possible(c, c.createdAt, history)
                              && Attempts(history) == 6 && Reconnects(history) == 0
                              && (forall e | e in history :: e.at <= c.createdAt + LAUNCH_DEADLINE)
  {
    BackoffTable();
    var t := c.createdAt;
    var h6: seq<RowEvent> := [];
    var h5 := DeliveredAt(t + 465 * SECOND, h6);
    var h4 := DeliveredAt(t + 225 * SECOND, h5);
    var h3 := DeliveredAt(t + 105 * SECOND, h4);
    var h2 := DeliveredAt(t + 45 * SECOND, h3);
    var h1 := DeliveredAt(t + 15 * SECOND, h2);
    var h0 := DeliveredAt(t, h1);
    var c1 := RowStep(c, h0[0]);
    var c2 := RowStep(c1, h1[0]);
    var c3 := RowStep(c2, h2[0]);
    var c4 := RowStep(c3, h3[0]);
    var c5 := RowStep(c4, h4[0]);
    assert Possible(c5, t + 225 * SECOND, h5);
    assert Possible(c4, t + 105 * SECOND, h4);
    assert Possible(c3, t + 45 * SECOND, h3);
    assert Possible(c2, t + 15 * SECOND, h2);
    assert Possible(c1, t, h1);
    assert Possible(c, t, h0);
    assert Attempts(h0) == 6 && Reconnects(h0) == 0;
  }

  lemma DeliveredAt(at: Time, rest: seq<RowEvent>) returns (history: seq<RowEvent>)
    ensures history == [Attempt(at, Delivered)] + rest && history[1..] == rest
    ensures Attempts(history) == 1 + Attempts(rest) && Reconnects(history) == Reconnects(rest)
  {
    history := [Attempt(at, Delivered)] + rest;
    assert history[1..] == rest;
  }
}
