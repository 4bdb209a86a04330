/** The delivery engine over the outbox table. */
module Delivery {
  import opened Tables
  import opened Transitions
  import Outbox

  /** What handing a command to the node's stream will do. */
  type Sender = CommandId -> Outbox.Outcome

  function OutcomesOf(batch: set<CommandId>, send: Sender): Outcomes { map c | c in batch :: send(c) }

  function Handed(batch: set<CommandId>, send: Sender): set<CommandId> { set c | c in batch && send(c).Delivered? }

  /** The claim: the oldest due rows that no other deliverer has locked, at most sixteen. */
  ghost predicate IsClaim(commands: Commands, n: NodeId, now: Time, busy: set<CommandId>, batch: set<CommandId>) {
    var open := DueIn(commands, n, now) - busy;
    batch <= open && |batch| <= Outbox.CLAIM_LIMIT && (|batch| < Outbox.CLAIM_LIMIT ==> batch == open) &&
    forall c, d | c in batch && d in open - batch :: commands[c].createdAt <= commands[d].createdAt
  }

  /** Open, for this node, and due. */
  predicate Waiting(row: Command, n: NodeId, now: Time) {
    row.node == n && row.status in {Unsent, Sent} && row.nextAttempt <= now
  }

  /** Each row once, in the order of creation. */
  predicate OldestFirst(commands: Commands, batch: seq<CommandId>) {
    && (forall c | c in batch :: c in commands)
    && (forall i, j :: 0 <= i < j < |batch| ==>
          batch[i] != batch[j] && commands[batch[i]].createdAt <= commands[batch[j]].createdAt)
  }

  /** Some of the open rows are claimed, oldest first; the others are no older. */
  ghost predicate Claiming(commands: Commands, open: set<CommandId>, rest: set<CommandId>, batch: seq<CommandId>) {
    && rest <= open && open <= commands.Keys && (forall c :: c in batch <==> c in open && c !in rest)
    && OldestFirst(commands, batch)
    && (forall c, d | c in batch && d in rest :: commands[c].createdAt <= commands[d].createdAt)
  }

  lemma ClaimStep(commands: Commands, open: set<CommandId>, rest: set<CommandId>, batch: seq<CommandId>, c: CommandId)
    requires Claiming(commands, open, rest, batch) && c in rest
    requires forall d | d in rest :: commands[c].createdAt <= commands[d].createdAt
    ensures Claiming(commands, open, rest - {c}, batch + [c])
  {
    var more := batch + [c];
    forall i, j | 0 <= i < j < |more|
      ensures more[i] != more[j] && commands[more[i]].createdAt <= commands[more[j]].createdAt
    {
      assert more[i] == batch[i] && batch[i] in batch;
    }
  }

  class Engine {
    var commands: Commands

    constructor ()
      ensures commands == map[]
    {
      commands := map[];
    }

    method ClaimDue(n: NodeId, now: Time, busy: set<CommandId>) returns (batch: seq<CommandId>)
      ensures IsClaim(commands, n, now, busy, Members(batch)) && |Members(batch)| == |batch|
      ensures OldestFirst(commands, batch)
      ensures |batch| <= 16
      ensures forall c | c in batch :: c !in busy && c in commands && Waiting(commands[c], n, now)
      ensures forall d | d in commands && d !in busy && d !in batch && Waiting(commands[d], n, now) ::
        |batch| == 16 && forall c | c in batch :: c in commands && commands[c].createdAt <= commands[d].createdAt
    {
      var open := DueIn(commands, n, now) - busy;
      var rest := open;
      batch := [];
      while |batch| < Outbox.CLAIM_LIMIT && rest != {}
        invariant Claiming(commands, open, rest, batch) && |batch| <= Outbox.CLAIM_LIMIT
        decreases rest
      {
        OldestExists(commands, rest);
        var c :| c in rest && forall d | d in rest :: commands[c].createdAt <= commands[d].createdAt;
        ClaimStep(commands, open, rest, batch, c);
        batch := batch + [c];
        rest := rest - {c};
      }
      CountMembers(batch);
      assert Members(batch) == open - rest;
      forall d | d in commands && d !in busy && d !in batch && Waiting(commands[d], n, now)
        ensures |batch| == 16
        ensures forall c | c in batch :: c in commands && commands[c].createdAt <= commands[d].createdAt
      {
        assert d in open && d in rest;
      }
    }

    method MarkSent(c: CommandId, attempts: nat, now: Time)
      modifies this
      ensures commands == if c in old(commands)
              then old(commands)[c := Outbox.MarkSent(old(commands)[c], attempts, now)]
                          else old(commands)
    {
      if c in commands {
        commands := commands[c := commands[c].(status := Sent, attempts := attempts + 1,
                                               nextAttempt := now + Outbox.ResendBackoff(attempts))];
      }
    }

    method MarkAttemptFailed(c: CommandId, attempts: nat, now: Time)
      modifies this
      ensures commands == if c in old(commands)
              then old(commands)[c := Outbox.MarkAttemptFailed(old(commands)[c], attempts, now)]
                          else old(commands)
    {
      if c in commands {
        commands := commands[c := commands[c].(attempts := attempts + 1,
          nextAttempt := now + Outbox.ResendBackoff(attempts))];
      }
    }

    method Ack(c: CommandId, ok: bool)
      modifies this
      ensures commands == AckRow(old(commands), c, ok)
    {
      if c in commands && commands[c].status.Open() {
        commands := commands[c := commands[c].(status := if ok then Acked else Rejected)];
      }
    }

    /** Hands one claimed row to the stream and books the outcome. */
    method SendOne(c: CommandId, attempts: nat, outcome: Outbox.Outcome, now: Time)
      requires c in commands
      modifies this
      ensures commands == old(commands)[c := Outbox.AfterSend(old(commands)[c], attempts, outcome, now)]
    {
      match outcome {
        case Malformed => Ack(c, false);
        case SendFailed => MarkAttemptFailed(c, attempts, now);
        case Delivered => MarkSent(c, attempts, now);
      }
    }

    /** One transaction: claim, hand over, and book the outcome of every claimed row. */
    method DeliverBatch(n: NodeId, send: Sender, now: Time, busy: set<CommandId>) returns (delivered: nat)
      modifies this
      ensures exists batch :: BatchDone(old(commands), commands, n, send, now, busy, batch) &&
                              delivered == |Handed(batch, send)|
    {
      var due := ClaimDue(n, now, busy);
      ghost var was := commands;
      delivered := SendAll(due, AttemptsIn(commands, Members(due)), send, now);
      assert BatchDone(was, commands, n, send, now, busy, Members(due));
    }

    /** One row of the loop. */
    method SendNext(ghost was: Commands, due: seq<CommandId>, i: nat, attempts: map<CommandId, nat>,
                    send: Sender, now: Time,
                    before: nat) returns (delivered: nat)
      requires Partway(was, commands, due, i, send, attempts, now, before) && i < |due|
      modifies this
      ensures Partway(was, commands, due, i + 1, send, attempts, now, delivered)
    {
      var c := due[i];
      PartwayStep(was, commands, due, i, send, attempts, now, before);
      SendOne(c, attempts[c], send(c), now);
      delivered := if send(c).Delivered? then before + 1 else before;
    }

    /** The loop over the claimed rows. */
    method SendAll(due: seq<CommandId>, attempts: map<CommandId, nat>, send: Sender, now: Time) returns (delivered: nat)
      requires Members(due) == attempts.Keys && Members(due) <= commands.Keys
      requires forall i, j :: 0 <= i < j < |due| ==> due[i] != due[j]
      modifies this
      ensures commands == DeliverRows(old(commands), OutcomesOf(Members(due), send), attempts, now)
      ensures delivered == |Handed(Members(due), send)|
    {
      ghost var was := commands;
      delivered := 0;
      PartwayStart(was, due, send, attempts, now);
      for i := 0 to |due|
        invariant Partway(was, commands, due, i, send, attempts, now, delivered)
      {
        delivered := SendNext(was, due, i, attempts, send, now, delivered);
      }
      PartwayEnd(was, commands, due, send, attempts, now, delivered);
    }

    /** With the clock held the loop ends, because every batch that delivers anything takes its
        rows out of the due set; so no row is attempted twice.  If every send succeeds, nothing
        that was due and unlocked is left. */
    method DeliverNode(n: NodeId, send: Sender, now: Time, busy: set<CommandId>)
      modifies this
      ensures RowsOnce(old(commands), commands, n, send, now, busy)
      ensures (forall c :: send(c).Delivered?) ==> DueIn(commands, n, now) <= busy
    {
      ghost var was := commands;
      var more := true;
      while more
        invariant RowsOnce(was, commands, n, send, now, busy)
        invariant !more && (forall c :: send(c).Delivered?) ==> DueIn(commands, n, now) <= busy
        decreases |DueIn(commands, n, now) - busy|, more
      {
        ghost var before := commands;
        var delivered := DeliverBatch(n, send, now, busy);
        ghost var batch :| BatchDone(before, commands, n, send, now, busy, batch) && delivered == |Handed(batch, send)|;
        BatchOnce(was, before, commands, n, send, now, busy, batch);
        BatchLeavesDue(before, commands, n, send, now, busy, batch);
        more := delivered != 0;
      }
    }

    method OnConnect(n: NodeId, send: Sender, now: Time, busy: set<CommandId>)
      modifies this
      ensures commands.Keys == old(commands).Keys
      ensures forall c | c in commands ::
        AttemptedAtMostOnce(Outbox.Reconnect(old(commands)[c], n, now), commands[c], n, send(c), now)
      ensures (forall c :: send(c).Delivered?) ==>
        forall c | c in commands && c !in busy && old(commands)[c].node == n && old(commands)[c].status.Open() ::
          commands[c].status.Sent? && commands[c].attempts == old(commands)[c].attempts + 1
    {
      commands := map c | c in commands ::
                    if commands[c].node == n && commands[c].status.Open()
                    then commands[c].(nextAttempt := now) else commands[c];
      ghost var reset := commands;
      DeliverNode(n, send, now, busy);
      if forall c :: send(c).Delivered? {
        forall c | c in commands && c !in busy && old(commands)[c].node == n && old(commands)[c].status.Open()
          ensures commands[c].status.Sent? && commands[c].attempts == old(commands)[c].attempts + 1
        {
          assert c in DueIn(reset, n, now) && AttemptedAtMostOnce(reset[c], commands[c], n, send(c), now);
          assert c !in DueIn(commands, n, now);
        }
      }
    }
  }

  /** A row either stays as it is, or was due and has the one outcome booked; then it is not due. */
  predicate AttemptedAtMostOnce(was: Command, row: Command, n: NodeId, outcome: Outbox.Outcome, now: Time) {
    row == was ||
    (Outbox.Due(was, n, now) && row == Outbox.AfterSend(was, was.attempts, outcome, now) && !Outbox.Due(row, n, now))
  }

  /** No row was attempted twice, and locked rows were left alone. */
  ghost predicate RowsOnce(was: Commands, rows: Commands, n: NodeId, send: Sender, now: Time, busy: set<CommandId>) {
    rows.Keys == was.Keys &&
    forall c | c in was :: AttemptedAtMostOnce(was[c], rows[c], n, send(c), now) && (c in busy ==> rows[c] == was[c])
  }

  lemma BatchOnce(was: Commands, before: Commands, after: Commands, n: NodeId, send: Sender, now: Time,
                  busy: set<CommandId>, batch: set<CommandId>)
    requires RowsOnce(was, before, n, send, now, busy) && BatchDone(before, after, n, send, now, busy, batch)
    ensures RowsOnce(was, after, n, send, now, busy)
  {
    forall c | c in was
      ensures c in after && AttemptedAtMostOnce(was[c], after[c], n, send(c), now) && (c in busy ==> after[c] == was[c])
    {
      BatchRow(before, after, n, send, now, busy, batch, c);
    }
  }

  ghost predicate BatchDone(before: Commands, after: Commands, n: NodeId, send: Sender, now: Time,
                            busy: set<CommandId>, batch: set<CommandId>) {
    IsClaim(before, n, now, busy, batch) && batch <= before.Keys &&
    after == DeliverRows(before, OutcomesOf(batch, send), AttemptsIn(before, batch), now)
  }

  function Members(s: seq<CommandId>): (r: set<CommandId>)
    ensures forall c :: c in r <==> c in s
  {
    set c | c in s
  }

  lemma {:induction false} CountMembers(s: seq<CommandId>)
    requires forall i, j :: 0 <= i < j < |s| ==> s[i] != s[j]
    ensures |Members(s)| == |s|
    decreases |s|
  {
    if s != [] {
      CountMembers(s[1..]);
      assert Members(s) == {s[0]} + Members(s[1..]);
    }
  }

  lemma {:induction false} OldestExists(commands: Commands, rest: set<CommandId>)
    requires rest != {} && rest <= commands.Keys
    ensures exists c | c in rest :: forall d | d in rest :: commands[c].createdAt <= commands[d].createdAt
    decreases |rest|
  {
    var c :| c in rest;
    if rest != {c} {
      assert rest == {c} + (rest - {c});
      OldestExists(commands, rest - {c});
      var o :| o in rest - {c} && forall d | d in rest - {c} :: commands[o].createdAt <= commands[d].createdAt;
      if commands[o].createdAt <= commands[c].createdAt {
        assert forall d | d in rest :: commands[o].createdAt <= commands[d].createdAt;
      } else {
        assert forall d | d in rest :: commands[c].createdAt <= commands[d].createdAt;
      }
    } else {
      assert forall d | d in rest :: commands[c].createdAt <= commands[d].createdAt;
    }
  }

  lemma OneMore(due: seq<CommandId>, i: nat, send: Sender)
    requires i < |due| && forall a, b :: 0 <= a < b < |due| ==> due[a] != due[b]
    ensures Members(due[..i + 1]) == Members(due[..i]) + {due[i]} && due[i] !in Members(due[..i])
    ensures Handed(Members(due[..i + 1]), send) ==
            Handed(Members(due[..i]), send) + if send(due[i]).Delivered? then {due[i]} else {}
    ensures |Handed(Members(due[..i + 1]), send)| ==
            |Handed(Members(due[..i]), send)| + if send(due[i]).Delivered? then 1 else 0
  {
    assert due[..i + 1] == due[..i] + [due[i]];
    assert Handed(Members(due[..i + 1]), send) ==
           Handed(Members(due[..i]), send) + if send(due[i]).Delivered? then {due[i]} else {};
  }

  lemma RowsStep(was: Commands, done: set<CommandId>, c: CommandId, send: Sender, attempts: map<CommandId, nat>,
                 now: Time)
    requires c in was && c !in done && done + {c} <= attempts.Keys
    ensures var d := DeliverRows(was, OutcomesOf(done, send), attempts, now);
            d[c] == was[c] && d.Keys == was.Keys &&
            DeliverRows(was, OutcomesOf(done + {c}, send), attempts, now)
            == d[c := Outbox.AfterSend(was[c], attempts[c], send(c), now)]
  {
  }

  /** The loop over claimed rows after i of them. */
  ghost predicate Partway(was: Commands, rows: Commands, due: seq<CommandId>, i: nat, send: Sender,
                          attempts: map<CommandId, nat>, now: Time, delivered: nat)
  {
    && i <= |due| && Members(due) == attempts.Keys && Members(due) <= was.Keys
    && (forall a, b :: 0 <= a < b < |due| ==> due[a] != due[b])
    && rows == DeliverRows(was, OutcomesOf(Members(due[..i]), send), attempts, now)
    && delivered == |Handed(Members(due[..i]), send)|
  }

  lemma PartwayStart(was: Commands, due: seq<CommandId>, send: Sender, attempts: map<CommandId, nat>, now: Time)
    requires Members(due) == attempts.Keys && Members(due) <= was.Keys
    requires forall a, b :: 0 <= a < b < |due| ==> due[a] != due[b]
    ensures Partway(was, was, due, 0, send, attempts, now, 0)
  {
  }

  lemma PartwayEnd(was: Commands, rows: Commands, due: seq<CommandId>, send: Sender, attempts: map<CommandId, nat>,
                   now: Time, delivered: nat)
    requires Partway(was, rows, due, |due|, send, attempts, now, delivered)
    ensures rows == DeliverRows(was, OutcomesOf(Members(due), send), attempts, now)
    ensures delivered == |Handed(Members(due), send)|
  {
    assert due[..|due|] == due;
  }

  lemma PartwayStep(was: Commands, rows: Commands, due: seq<CommandId>, i: nat, send: Sender,
                    attempts: map<CommandId, nat>, now: Time, delivered: nat)
    requires Partway(was, rows, due, i, send, attempts, now, delivered) && i < |due|
    ensures due[i] in rows && due[i] in attempts
    ensures Partway(was, rows[due[i] := Outbox.AfterSend(rows[due[i]], attempts[due[i]], send(due[i]), now)], due,
                    i + 1, send, attempts, now, delivered + if send(due[i]).Delivered? then 1 else 0)
  {
    assert due[i] in Members(due);
    OneMore(due, i, send);
    RowsStep(was, Members(due[..i]), due[i], send, attempts, now);
  }

  /** What one batch does to one row. */
  lemma BatchRow(before: Commands, after: Commands, n: NodeId, send: Sender, now: Time,
                 busy: set<CommandId>, batch: set<CommandId>, c: CommandId)
    requires BatchDone(before, after, n, send, now, busy, batch) && c in before
    ensures c in after
    ensures c !in batch ==> after[c] == before[c]
    ensures c in batch ==> c !in busy && Outbox.Due(before[c], n, now) && !Outbox.Due(after[c], n, now) &&
                           after[c] == Outbox.AfterSend(before[c], before[c].attempts, send(c), now)
  {
    if c in batch {
      assert c in DueIn(before, n, now) - busy;
      assert OutcomesOf(batch, send)[c] == send(c) && AttemptsIn(before, batch)[c] == before[c].attempts;
    }
  }

  /** After a batch none of its rows is due, and no other row changed: the due set loses exactly it. */
  lemma BatchLeavesDue(before: Commands, after: Commands, n: NodeId, send: Sender, now: Time,
                       busy: set<CommandId>, batch: set<CommandId>)
    requires BatchDone(before, after, n, send, now, busy, batch)
    ensures DueIn(after, n, now) - busy == (DueIn(before, n, now) - busy) - batch
    ensures Handed(batch, send) != {} ==> |DueIn(after, n, now) - busy| < |DueIn(before, n, now) - busy|
    ensures Handed(batch, send) == {} && (forall c :: send(c).Delivered?) ==> DueIn(after, n, now) <= busy
  {
    var a, b := DueIn(before, n, now) - busy, DueIn(after, n, now) - busy;
    forall c ensures c in b <==> c in a && c !in batch {
      if c in before { BatchRow(before, after, n, send, now, busy, batch, c); }
    }
    assert b == a - batch;
    if Handed(batch, send) != {} {
      var c :| c in Handed(batch, send);
      assert c in a && c !in b && b < a;
      ProperSubset(b, a);
    } else if forall c :: send(c).Delivered? {
      assert batch == Handed(batch, send);
    }
  }

  lemma ProperSubset(b: set<CommandId>, a: set<CommandId>)
    requires b < a
    ensures |b| < |a|
  {
    assert a == b + (a - b);
  }
}
