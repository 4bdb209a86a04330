# The GPU platform's control plane, modelled and proved

This project models the control plane of a GPU rental platform: workloads are launched onto GPUs of
enrolled nodes, queued when nothing fits, promoted as capacity frees up, stopped, and swept when their
node or their agent goes silent. Commands to agents go through a durable outbox; agents answer with
reports that may be lost, repeated, late or out of order. Around it stand metering and the credit
ledger, telemetry retention, organization membership, reservations, a request limiter, the audit
search and the log framing between agent and server.

The source changes rows step by step, so each operation is an imperative method on a class whose
fields are the tables, proved equal to one function on the database; the properties are then proved of
those functions, over whole runs. Beside that, each main operation is pinned on the plain columns it reads
and writes, without naming those functions.

| file | content |
|---|---|
| `Tables.dfy` | the rows, statuses, and what it means to hold a GPU |
| `Transitions.dfy`, `Books.dfy`, `Runs.dfy`, `Safety.dfy` | each transaction as a function; the invariants and why each transaction keeps them; the transition system; what holds over every run, in plain terms |
| `Service.dfy`, `FirstFit.dfy`, `Promotion.dfy` | the workloads service statement by statement; first-fit placement; queue promotion |
| `Effects.dfy`, `Tenancy.dfy` | what each transaction writes, column by column with literal times; whose GPUs and which models a workload can get, over every run |
| `Interleaving.dfy` | open placement transactions at row-lock granularity, refining the atomic model |
| `Outbox.dfy`, `Delivery.dfy` | one command row over time and its backoff; the delivery loops |
| `Agent.dfy`, `Framing.dfy` | what the agent can report and its command tracker; log framing |
| `Ledger.dfy`, `Metering.dfy` | the running balance; slices, costs and the metering pass |
| `Settlement.dfy`, `Exactness.dfy` | billing interleaved with the whole control plane; what clocks that do not run back add |
| `Pacing.dfy` | how often a launch is sent over a whole timely history |
| `RateLimit.dfy` | the fixed-window limiter |
| `Rollup.dfy`, `Retention.dfy`, `Utilization.dfy` | hourly merge; the sweep in batches; the reader over raw and merged rows |
| `Membership.dfy`, `Identity.dfy` | memberships as functions and over runs; the identity service |
| `Reservations.dfy`, `Like.dfy` | bookings; LIKE patterns and their escaping |

`dafny verify dfyconfig.toml` checks everything.

## How the source is read

- A database transaction is one atomic step; placement has the finer model in `Interleaving.dfy`.
  A report is three steps (node check, read, guarded write), as the gateway runs them.
- Ids are fresh. Every time is a parameter, and runs allow any values unless a theorem says that the
  clock does not run back. Times are integers: microseconds, and nanoseconds in the limiter.
- Money, rates and measurements are exact reals; charged seconds are truncated integers as in the source.
- Rates are a parameter (organization, model, time), non-negative where charges are compared with costs.

Where comments and code disagree, the model follows the code:

- `gpu-platform/internal/telemetry/retention.go:43-47` says a re-roll after a crash merges to the same
  result. It adds the rows again (`Rollup.ReRollCountsTwice`).
- `gpu-platform/internal/telemetry/impl.go:89-91` says the union of raw and merged rows has no gap. It has
  one between the moment the boundary moves and the next sweep (`Utilization.CompleteWhenNoneWaits`). Right
  after a sweep the reader is right on every history if and only if the window is clean: each end lies on
  the hour, or at or past the boundary (`Utilization.RightExactlyWhenClean`).
- `gpu-platform/internal/workloads/impl.go:285-287` lists two cases of the sweep. There are four.
- `gpu-platform/internal/identity/memberships.go:233-235` says exactly one owner remains after a transfer.
  That holds only if nobody else was an owner (`Membership.TransferLeavesOneOwner`).
- `gpu-platform/internal/httpapi/ratelimit.go:15-16` bounds a window's length by twice the limit. The exact
  bound is less: 2 * max(1, limit) - 1, and max(1, limit) when the window is empty
  (`RateLimit.AtMostTwiceTheLimit`, `RateLimit.BoundIsReached`).
- `gpu-platform/internal/ops/reservations.go:41` shows a booking as active at its end instant, when it is no
  longer counted (`Reservations.ShownCountsTheEnd`).

## Model

| member | source | states |
|---|---|---|
| Safety.GpuBook | gpu-platform/internal/workloads/impl.go:288-427 | Over every run of launches, promotions, stops, agent reports, sweeps, removals and deliveries: a GPU is in_use exactly when it has one open attachment, held by one pending, running or stopping workload of the same node; otherwise it has none |
| Safety.WorkloadBook | gpu-platform/internal/workloads/impl.go:757-849 | Over every run: an active workload holds exactly the number of GPUs it asked for, all on its own node; queued, stopped and failed workloads hold none |
| Safety.PendingHasItsLaunch | gpu-platform/internal/workloads/impl.go:876-915 | Over every run: a pending workload has exactly one launch row, on its own node, neither expired nor superseded |
| Safety.StoppingHasItsStop | gpu-platform/internal/workloads/impl.go:917-938 | Over every run: a stopping workload has a stop row on its own node that is neither expired nor superseded |
| Safety.ClosedRowsAreMoot | gpu-platform/internal/commands/commands.go:135-179 | Over every run: a superseded row belongs to a terminal workload; an expired row is a launch whose workload is not pending any more |
| Safety.SettledForGood | gpu-platform/internal/commands/commands.go:103-133 | Between any two states of a run: acked, failed, expired and superseded rows keep their status although MarkSent carries no status guard, and no other command takes their id |
| Safety.NoResurrection | gpu-platform/internal/workloads/impl.go:615-729 | Between any two states of a run, with reports lost, duplicated, delayed or reordered: the rank queued < pending < running < stopping < terminal never decreases, a terminal status is final, started_at and stopped_at are written at most once |
| Safety.StampedWhenTerminal | gpu-platform/internal/workloads/impl.go:656-699 | Over every run: stopped_at is set exactly when the workload is terminal |
| Safety.StampedOnTheWay | gpu-platform/internal/workloads/impl.go:629-631 | Over every run: a running workload has a start, a stopping one the time it was told to stop, a queued one the time it was queued |
| Safety.HoldingsFixed | gpu-platform/internal/workloads/impl.go:831-849 | Between any two states in which a workload is active, its GPUs and its node are the same |
| Tenancy.OwnGpusOnly | gpu-platform/internal/workloads/impl.go:757-770 | Over every run: every GPU ever attached to a workload belongs, with its node, to the workload's organization, and its model contains the type asked for, up to case |
| Tenancy.OwnGpusOnlyInterleaved | gpu-platform/internal/workloads/impl.go:757-849 | The same over every lock-level run |
| Safety.DefaultBranchNeedsRank | gpu-platform/internal/workloads/impl.go:725-727 | The unguarded default branch keeps the rank if and only if the reported status does not rank below the stored one |
| Safety.DefaultBranchResurrects | gpu-platform/internal/workloads/impl.go:725-727 | A sound database with a stopped workload that the default branch would bring back to life |
| Safety.SweepUpdateNeedsLiveRow | gpu-platform/internal/workloads/impl.go:308-339 | The unguarded UPDATE of the sweep keeps stopped_at write-once if and only if the row is not already terminal |
| Runs.StepGood | gpu-platform/internal/workloads/impl.go:615-723 | Every step of the system keeps all invariants, moves every workload onward only, and unsettles no command |
| Runs.RunGood | gpu-platform/internal/workloads/impl.go:288-427 | Every state of every run satisfies all invariants |
| Runs.RunOnward | gpu-platform/internal/workloads/impl.go:615-723 | Any two states of a run are related by onward moves of every workload |
| Runs.DeliverSettles | gpu-platform/internal/agentgw/delivery.go:82-122 | A delivery transaction over claimed rows never reopens a settled row, whatever its sends do |
| Agent.ReportsStayGuarded | gpu-platform/agent/client/client.go:362-396 | No report the agent can build reaches the default branch of UpdateStatus |
| Agent.DefaultBranchReachedBy | gpu-platform/internal/agentgw/server.go:307-330 | Exactly the pending, stopping and unspecified messages without the stage prefix get to the default branch |
| Agent.ReportArrivesExactly | gpu-platform/internal/agentgw/server.go:307-330 | A launch, stop or reconcile report arrives as the status it is about if and only if its text does not start with the stage prefix |
| Agent.StageLikeReasonIsLost | gpu-platform/internal/agentgw/server.go:316-322 | An instance: a failed launch whose reason starts with the prefix is recorded as a stage and never as a failure |
| Books.PlacedSound | gpu-platform/internal/workloads/impl.go:757-915 | Placing a workload (launch or promotion) on idle GPUs of one node never trips the guards and keeps every invariant |
| Books.ReportTerminalSound | gpu-platform/internal/workloads/impl.go:656-699 | A terminal report keeps every invariant when the GPU list it read is current |
| Books.SweepSound | gpu-platform/internal/workloads/impl.go:288-427 | The four-case sweep keeps every invariant |
| Books.RemoveNodeSound | gpu-platform/internal/nodes/repo.go:301-358 | A node removal, forced or not, keeps every invariant |
| Books.StopSound | gpu-platform/internal/workloads/impl.go:241-283 | A stop keeps every invariant, its own stop row included |
| Service.ControlPlane.Launch | gpu-platform/internal/workloads/impl.go:141-239 | More than 16 GPUs or a refused admission change nothing; otherwise the workload is placed by first fit, with its row, its holdings and its launch command due at once and for 600 s, or queued at `now` if and only if no node fits |
| Service.ControlPlane.Scan | gpu-platform/internal/workloads/impl.go:757-770 | The candidate rows, each once, in node and index order |
| Service.ControlPlane.GroupRows | gpu-platform/internal/workloads/impl.go:771-785 | Candidates by node, nodes in order of first sight |
| Service.ControlPlane.PlaceAndAttach | gpu-platform/internal/workloads/impl.go:757-825 | On the columns: every GPU returned is the organization's own, idle, unlocked, on one online node, and of a model that contains the type; no lower node has enough such rows, no lower-numbered row of the node was skipped; nothing is returned if and only if no node has enough |
| Service.ClaimIsLegal | gpu-platform/internal/workloads/impl.go:757-825 | What the service claims is allowed by the transition system: its launches and promotions are steps of runs |
| Service.ControlPlane.AttachRows | gpu-platform/internal/workloads/impl.go:831-849 | Row by row insertion and the counted flip amount to attaching the whole claim, or to the guard that failed |
| Service.ControlPlane.Stop | gpu-platform/internal/workloads/impl.go:241-283 | Refused unless pending or running; otherwise the row is stopping since `now` with its reason, and one stop command is due at its node |
| Service.ControlPlane.CancelQueued | gpu-platform/internal/workloads/queue.go:92-107 | Stops a queued workload at `now`, for the user; any other is refused unchanged |
| Service.ControlPlane.PromoteOne | gpu-platform/internal/workloads/queue.go:171-221 | Promoted by first fit if and only if some node fits and the row is still queued, with its holdings and its launch command; otherwise nothing changes |
| Service.ControlPlane.PromoteQueued | gpu-platform/internal/workloads/queue.go:119-166 | A pass over the queue, ended by the queue or by the first refused admission: nobody leaves the queue past a request of the same type that waits longer, by queued_at or else created_at, and asks for no more GPUs; the count is how many left, other rows are untouched, and if never refused nothing left queued fits |
| Service.ControlPlane.UpdateStatus | gpu-platform/internal/workloads/impl.go:615-729 | From the owning node only: running lands on pending and running rows and keeps the first start, sends one stop to the node for a terminal row, and is ignored otherwise; stopped and failed end a live workload at `now`, close its attachments and free its GPUs, and are ignored on a terminal one |
| Service.ControlPlane.SweepStuck | gpu-platform/internal/workloads/impl.go:288-427 | Fails exactly the workloads whose node is offline and unseen for 120 s, that have been stopping for 120 s, or that are pending with a launch past its deadline; every other row is unchanged, none of the three is left, and the count is theirs; together the statements are the sweep in one piece |
| Service.SweepAddsUp | gpu-platform/internal/workloads/impl.go:308-389 | Failing stuck workloads, freeing, expiring, failing the undelivered, superseding and freeing again equals failing, closing and freeing once; the two sets failed are disjoint |
| Effects.SweepFailsExactly | gpu-platform/internal/workloads/impl.go:308-389 | A sweep fails a workload if and only if its node is offline and unseen for 120 s, it has been stopping for 120 s, or it is pending with a launch past its deadline; it keeps an earlier stop reason |
| Effects.SweepClosesExactly | gpu-platform/internal/commands/commands.go:144-179 | A sweep expires exactly the open commands past their deadline and supersedes exactly the other open ones whose workload has ended |
| Effects.SweepDetachesExactly | gpu-platform/internal/workloads/impl.go:329-377 | A sweep closes exactly the open attachments of the workloads it fails |
| Effects.SweepFreesExactly | gpu-platform/internal/workloads/impl.go:341-389 | Whatever state a sweep finds, it leaves idle exactly those GPUs in use that no live workload has attached, so leaked ones are healed |
| Effects.NothingLostAfterSweep | gpu-platform/internal/workloads/impl.go:308-389 | After a sweep no workload is lost any more and no open command is past its deadline |
| Service.ControlPlane.ExpireOverdue | gpu-platform/internal/commands/commands.go:144-163 | Exactly the open rows past their deadline expire, no other row changes, and what is returned are the pending workloads whose launch that was |
| Service.ControlPlane.SupersedeForTerminalWorkloads | gpu-platform/internal/commands/commands.go:168-179 | Exactly the open rows of stopped and failed workloads are superseded, no other row changes |
| Service.ControlPlane.RemoveNode | gpu-platform/internal/nodes/repo.go:301-358 | Not found for a foreign node, busy for active workloads unless forced; otherwise what was active there fails at `now`, and the node goes with its GPUs, attachments and commands; everything else is as it was |
| Service.ControlPlane.PromoteAllQueued | gpu-platform/internal/workloads/queue.go:226-252 | The passes over all organizations: if never refused, nothing is left queued anywhere that fits; the total is how many workloads left the queue |
| Promotion.PassIsMaximal | gpu-platform/internal/workloads/queue.go:119-221 | After a pass without refusals no candidate that stayed queued fits any online node |
| Promotion.NoOvertaking | gpu-platform/internal/workloads/queue.go:119-166 | FIFO with skip: in a pass nobody starts past an older request of the same GPU type that asks for no more GPUs |
| Promotion.PassShrinks | gpu-platform/internal/workloads/queue.go:119-221 | Free capacity only shrinks during a pass |
| FirstFit.ClaimComplete | gpu-platform/internal/workloads/impl.go:794-814 | A claim that comes back short has taken every eligible row of the node |
| FirstFit.ClaimTakesLowest | gpu-platform/internal/workloads/impl.go:794-814 | A claim never skips an eligible row for a later one |
| FirstFit.FitsWhenTakeable | gpu-platform/internal/workloads/impl.go:757-770 | A node fits a request if and only if it is online and has that many idle, unlocked GPUs of the organization whose model contains the type |
| Interleaving.GuardNeverFires | gpu-platform/internal/workloads/impl.go:831-849 | With any number of open placement transactions, neither the row-count guard nor the unique index can fire: a commit fails only because a queued workload left the queue |
| Interleaving.Refines | gpu-platform/internal/workloads/impl.go:757-849 | Every lock-level step is a legal atomic step or changes no table |
| Interleaving.IdleRowsUntouched | gpu-platform/internal/workloads/impl.go:656-699 | No step but a placement or a node removal writes the row of an idle GPU, so reports and sweeps never touch a locked one |
| Interleaving.InterleavedIsCoarse | gpu-platform/internal/workloads/impl.go:757-849 | Every lock-level run reaches only databases that atomic runs reach, and keeps its own invariant |
| Interleaving.ClaimsExclusive | gpu-platform/internal/workloads/impl.go:794-825 | At every moment of a lock-level run, a GPU claimed by one open placement is idle and unattached in the tables and claimed by no other |
| Outbox.BackoffTable | gpu-platform/internal/commands/commands.go:66-74 | The resend waits: 15 s, doubling with each attempt up to 240 s |
| Outbox.AnswerSettles | gpu-platform/internal/commands/commands.go:121-133 | An answer settles an open row, acknowledged if and only if it is positive; a settled row ignores it |
| Outbox.HandOverWrites | gpu-platform/internal/agentgw/delivery.go:82-122 | A malformed row is rejected for good, a delivered one is sent, a failed one stays open; both are due again after 15 s doubling up to 240 s |
| Outbox.LaunchAttemptsBounded | gpu-platform/internal/commands/commands.go:66-120 | The bound on the row alone: on any sequence of attempts and r reconnects within the 600 s deadline, at most 6 + r attempts; `Pacing.LaunchSentAtMost` carries it over to whole histories |
| Outbox.SixAttemptsHappen | gpu-platform/internal/commands/commands.go:66-120 | Six attempts without a reconnect do happen: the bound is met |
| Pacing.LaunchSentAtMost | gpu-platform/internal/agentgw/delivery.go:82-136 | Over every timely history, whatever stops, sweeps, expiries, supersessions, reports, acknowledgements and removals come in between: while a command is at most 600 s old it has been sent at most 6 + r times, where r is how often its node reconnected while the row was there |
| Delivery.Engine.ClaimDue | gpu-platform/internal/commands/commands.go:80-100 | Open, unlocked rows of this node that are due, at most 16, each once and in order of creation; if another such row is left out, the batch is full and holds no newer one |
| Delivery.Engine.DeliverBatch | gpu-platform/internal/agentgw/delivery.go:82-122 | One batch: every claimed row gets exactly the outcome of its send, every other row is untouched |
| Delivery.Engine.DeliverNode | gpu-platform/internal/agentgw/delivery.go:69-80 | With the clock held the loop ends, no row is attempted twice, and if every send succeeds nothing due and unlocked is left |
| Delivery.Engine.OnConnect | gpu-platform/internal/agentgw/delivery.go:128-136 | A reconnect makes every open row of the node due at once and delivers; no row is attempted twice, and if every send succeeds every unlocked one is sent |
| Delivery.BatchLeavesDue | gpu-platform/internal/agentgw/delivery.go:69-122 | A batch that delivers something strictly shrinks the due set |
| CommandTracker.Tracker.Begin | gpu-platform/agent/client/client.go:66-81 | Fresh, cached with its answer, or in flight, exactly as the value-level tracker says |
| CommandTracker.Tracker.Finish | gpu-platform/agent/client/client.go:83-93 | Stores the answer and evicts the oldest beyond 256 |
| CommandTracker.AlwaysValid | gpu-platform/agent/client/client.go:50-93 | Over every history in which only commands in flight finish: done keys are the duplicate-free FIFO of at most 256, disjoint from those in flight |
| CommandTracker.DuplicateGetsFirstAnswer | gpu-platform/agent/client/client.go:66-93 | While fewer than 256 others finished since, a duplicate gets the first execution's answer |
| CommandTracker.FreshTwice | gpu-platform/agent/client/client.go:66-93 | An id is fresh a second time only after its first run finished and 256 pairwise distinct other commands finished since |
| Framing.FindSep | gpu-platform/internal/agentgw/server.go:343-350 | The first occurrence of the separator, or -1 if there is none |
| Framing.RoundTrip | gpu-platform/internal/agentgw/server.go:332-350 | The logs come back if and only if the separator the agent wrote is the first one in the message |
| Framing.SendAndExtract | gpu-platform/agent/client/client.go:523-526 | For non-empty logs, what is extracted equals what was sent if and only if the header followed by the separator does not contain it earlier |
| Framing.OverlapLosesLogs | gpu-platform/internal/agentgw/server.go:332-350 | A header that does not contain the separator and still loses its logs, because the separator overlaps itself |
| Framing.PlainHeaderIsSafe | gpu-platform/agent/client/client.go:373-376 | Every header without a newline is safe |
| Like.PrefixFilter | gpu-platform/internal/audit/impl.go:115-122 | The escaped prefix pattern matches t exactly when s is a prefix of t, for all strings |
| Like.SearchFilter | gpu-platform/internal/audit/impl.go:65-67 | The escaped search pattern matches t exactly when q occurs in t, for all strings |
| Like.SearchFilterFolded | gpu-platform/internal/audit/impl.go:65-67 | The same up to case under ILIKE |
| Like.FoldsTogether | gpu-platform/internal/audit/impl.go:65-67 | Two texts fold together if and only if they differ at most in the case of their letters |
| Like.UnescapedRightExactlyWhenPlain | gpu-platform/internal/audit/impl.go:118-122 | Used without escaping, a term finds exactly the strings that contain it if and only if it has no backslash, percent sign or underscore |
| Like.UnescapedTermMisleads | gpu-platform/internal/audit/impl.go:118-122 | An instance: a wildcard in an unescaped term matches a string that does not contain it |
| Metering.Service.MeterWorkload | gpu-platform/internal/billing/impl.go:269-407 | One call bills exactly the next slice of the workload for every attached GPU, debits the total and moves the watermark, or changes nothing |
| Metering.Service.BillGpus | gpu-platform/internal/billing/impl.go:340-406 | The loop over the GPUs: one usage row, one cost row each, their sum debited once |
| Metering.ChargeWrites | gpu-platform/internal/billing/impl.go:394-401 | The debit is 83 times the total, on one row that names the workload; a free slice posts none |
| Metering.Service.MeterRunning | gpu-platform/internal/billing/impl.go:413-452 | A pass meters every owing workload once, skips failing calls, and counts the others; with the clock held every workload whose call did not fail ends up to date: terminal ones settled, active ones owing at most 300 s |
| Metering.Service.PostLedger | gpu-platform/internal/billing/impl.go:462-475 | Appends a row whose balance is the organization's latest balance plus the delta |
| Metering.Service.AddCredit | gpu-platform/internal/billing/impl.go:477-497 | Rejects non-positive amounts unchanged; otherwise posts and returns the new balance |
| Metering.Service.CreditSummary | gpu-platform/internal/billing/impl.go:499-515 | Latest balance, sum of positive deltas, negated sum of negative ones, and the negated sum of the negative ones since the start of the month |
| Metering.TruncationBound | gpu-platform/internal/billing/impl.go:294-311 | For any chain of periods whose all but last are at least 5 minutes: charged seconds never exceed the elapsed time T and fall short of it by less than T/300 + 1 |
| Metering.TilesApart | gpu-platform/internal/billing/impl.go:287-311 | Tiled periods are in order and share no instant; neighbours meet |
| Metering.BillCharges | gpu-platform/internal/billing/impl.go:394-401 | Charges stay equal to 83 times costs if and only if the slice's total is not negative |
| Ledger.PostBalanced | gpu-platform/internal/billing/impl.go:462-475 | Posting keeps every row's balance equal to the sum of its organization's deltas so far and touches no other organization |
| Ledger.BalanceIsGrantedLessSpent | gpu-platform/internal/billing/impl.go:499-515 | In a balanced ledger the balance is what was granted less what was spent |
| Ledger.MonthIsPart | gpu-platform/internal/billing/impl.go:499-507 | The month's spending is between nothing and all that was spent, does not grow with a later start, and is all of it when no row is older |
| Ledger.MonthStartsFresh | gpu-platform/internal/billing/impl.go:499-507 | Rows before the month's start add nothing to its spending, and every charge from then on counts in full |
| Settlement.TimeIsTiled | gpu-platform/internal/billing/impl.go:258-311 | Over any interleaving of metering, settlement, top-ups and control-plane steps, on any clocks: each GPU of a started workload whose node stands is billed in a gap-free, overlap-free chain from started_at to the watermark, and no other GPU is billed for it |
| Settlement.NothingBeforeStart | gpu-platform/internal/billing/impl.go:283-285 | A workload that never started is never billed |
| Settlement.SettlementNeedsClock | gpu-platform/internal/billing/impl.go:287-305 | A settlement brings the total to exactly stopped_at - started_at if and only if the watermark does not already lie past stopped_at |
| Settlement.LedgerConserves | gpu-platform/internal/billing/impl.go:394-515 | Over any interleaving and any number of organizations: row balances are running sums, balance is granted less spent, and 3600 times the spending is 83 times the sum of seconds times hourly rate over the organization's records |
| Settlement.CostsPriceUsage | gpu-platform/internal/billing/impl.go:350-392 | Over any history: every cost record belongs to its own usage record of an attached GPU, with the workload's organization and the period's whole seconds; 3600 times the amount is seconds times the rate, which was in force when it was metered for that organization and the GPU's model at the end of the period |
| Settlement.AttachedFixed | gpu-platform/internal/workloads/impl.go:831-849 | While a placed workload's node stays, the GPUs attached to it stay the same rows, detached or not |
| Exactness.SettledExactly | gpu-platform/internal/billing/impl.go:269-305 | With a clock that does not run back: once settled, each GPU of a terminal workload has been billed exactly stopped_at - started_at, in tiles, whatever the schedule was |
| Exactness.SettledWithinBound | gpu-platform/internal/billing/impl.go:27-311 | The seconds charged for a settled workload on one GPU never exceed T and fall short by less than T/300 + 1 |
| Exactness.GpuTimeBilledOnce | gpu-platform/internal/billing/impl.go:287-383 | Two usage records of one GPU never share an instant, be they of one workload or of two, and whether or not the GPU's node was removed since |
| RateLimit.RateLimiter.Allow | gpu-platform/internal/httpapi/ratelimit.go:42-68 | One hit, with the amortized deletion loop, has exactly the effect and answer of the bucket arithmetic; the Retry-After of a refusal ends after the bucket does, by at most a second |
| RateLimit.CleanupNeverChangesAnAnswer | gpu-platform/internal/httpapi/ratelimit.go:47-56 | With a non-decreasing clock every answer, and the bucket behind every refusal, is that of a limiter that never deletes |
| RateLimit.CleanupChangesOneAnswer | gpu-platform/internal/httpapi/ratelimit.go:47-68 | One cleanup before one call changes the answer if and only if the call's bucket had expired by the cleanup's reading, has not by the call's, and is at its limit |
| RateLimit.FirstDifference | gpu-platform/internal/httpapi/ratelimit.go:43-68 | On any clocks: the first call to find its unexpired bucket deleted is answered differently if and only if that bucket was at its limit; before it no answer differs |
| RateLimit.OnlyStaleCallsMiss | gpu-platform/internal/httpapi/ratelimit.go:43-56 | The first call that finds its unexpired bucket deleted reads an earlier time than the last cleanup read |
| RateLimit.CleanupShowsExactlyOnAMiss | gpu-platform/internal/httpapi/ratelimit.go:43-56 | On any clocks: up to repeating the last call, all answers are those of a limiter that never deletes if and only if that call does not find its unexpired bucket deleted, given that no earlier one did |
| RateLimit.NeverShowsExactlyWithoutMisses | gpu-platform/internal/httpapi/ratelimit.go:43-56 | Over whole histories, on any clocks: repeating any call right after it never shows the cleanup if and only if no call finds its unexpired bucket deleted |
| RateLimit.AtMostTwiceTheLimit | gpu-platform/internal/httpapi/ratelimit.go:15-16 | In any closed interval one window long, a key passes at most 2 * max(1, limit) - 1 times, and at most max(1, limit) times when the window is empty: always less than twice |
| RateLimit.BoundIsReached | gpu-platform/internal/httpapi/ratelimit.go:15-16 | That bound is reached for every limit and every window |
| RateLimit.RetryAfterIsEnough | gpu-platform/internal/httpapi/ratelimit.go:64-66 | A refused caller who waits Retry-After, with no hit on the key meanwhile but any calls on other keys, on any clocks, passes |
| RateLimit.StaleClockShows | gpu-platform/internal/httpapi/ratelimit.go:43-46 | An instance: with the clock read before the lock, a stale reading is answered differently because of the cleanup |
| Rollup.MergeAdds | gpu-platform/internal/telemetry/retention.go:67-83 | The weighted merge adds counts, weighted averages and ECC errors, and takes the greater maxima |
| Rollup.MergeColumns | gpu-platform/internal/telemetry/retention.go:67-83 | Column by column: counts and ECC errors add, averages are weighted by their counts, maxima are the greater of the two |
| Rollup.AggregateOfOne | gpu-platform/internal/telemetry/retention.go:60-66 | One sample makes an hourly row of its own columns |
| Rollup.SweepConserves | gpu-platform/internal/telemetry/retention.go:48-97 | A sweep keeps what the merged row and the raw rows of an hour say together |
| Rollup.HistoryConserves | gpu-platform/internal/telemetry/retention.go:48-97 | However an hour's samples are split over crash-free sweeps, merged row plus remaining raw rows equal the aggregate of all samples ever ingested |
| Rollup.RolledUpIsDirect | gpu-platform/internal/telemetry/retention.go:60-83 | Once no raw row of an hour is left, its merged row is the direct aggregate: count, averages, maxima, ECC sum |
| Rollup.ReRollCountsTwice | gpu-platform/internal/telemetry/retention.go:43-47 | After a crash between merge and deletion, the next sweep, at any later boundary and with whatever arrived meanwhile, is too high in every measure by what the first merge added, so right if and only if that was nothing |
| Rollup.ReRollCounts | gpu-platform/internal/telemetry/retention.go:43-47 | Of that, the sample count is right if and only if no row was merged, and the ECC sum if and only if the merged rows had no errors |
| Rollup.LateRowsAreLost | gpu-platform/internal/telemetry/retention.go:60-97 | Rows ingested between merge and deletion survive if and only if none of them lies below the boundary |
| Retention.Telemetry.Ingest | gpu-platform/internal/telemetry/impl.go:38-79 | Stores the samples of known GPUs, in order, and drops the others |
| Retention.KnownExactly | gpu-platform/internal/telemetry/impl.go:38-79 | Every sample of a known GPU is kept as often as it came, no sample of any other |
| Retention.Telemetry.DeleteBatch | gpu-platform/internal/telemetry/retention.go:89-92 | Removes min(5000, remaining) rows below the cutoff and no other |
| Retention.Telemetry.BatchedDelete | gpu-platform/internal/telemetry/retention.go:132-144 | The batch loop ends with exactly the rows below the cutoff gone, and counts them |
| Retention.Telemetry.RollUpRaw | gpu-platform/internal/telemetry/retention.go:60-87 | The upsert, group by group |
| Retention.Telemetry.SweepRetention | gpu-platform/internal/telemetry/retention.go:48-130 | Deletes no raw sample younger than the retention period and leaves none older by an hour or more; 14 and 365 days when nothing is asked for; merges, ages out, and counts hours merged, raw rows and rollups deleted |
| Utilization.PointsAddUp | gpu-platform/internal/telemetry/impl.go:101-114 | On clean windows (each end on the hour, or at or past the boundary) the points read, plus the raw rows still waiting below the boundary, add up to all samples of the window |
| Utilization.MeanRightAfterSweep | gpu-platform/internal/telemetry/impl.go:89-114 | Right after a sweep the weighted mean over raw and merged rows is the mean of all original samples, on every clean window whose hours are retained |
| Utilization.CompleteWhenNoneWaits | gpu-platform/internal/telemetry/impl.go:89-92 | On clean windows the reader counts every sample of its window if and only if no raw row of the window waits below its boundary |
| Utilization.RightExactlyWhenClean | gpu-platform/internal/telemetry/impl.go:89-114 | The reader is right after the sweep of every history its window fits if and only if the window is empty or clean |
| Utilization.UncleanMisleads | gpu-platform/internal/telemetry/impl.go:101-110 | For every non-empty window that is not clean there is a sample that the reader wrongly drops or wrongly counts right after the sweep that merged it |
| Identity.Service.ChangeMemberRole | gpu-platform/internal/identity/memberships.go:97-134 | The role change with every refusal in order |
| Identity.Service.RemoveMember | gpu-platform/internal/identity/memberships.go:138-175 | The removal with every refusal in order |
| Identity.Service.LeaveOrg | gpu-platform/internal/identity/memberships.go:189-231 | Leaving, with the deletion rolled back when the user is not in the organization |
| Identity.Service.TransferOwnership | gpu-platform/internal/identity/memberships.go:236-264 | Both updates, in order, or a refusal |
| Identity.Service.AcceptInvitation | gpu-platform/internal/identity/memberships.go:423-471 | The claim, rolled back for an e-mail address that differs by more than case and surrounding spaces, then the join |
| Identity.Service.JoinViaCode | gpu-platform/internal/identity/memberships.go:539-609 | One use of the code and the join, or a refusal |
| Identity.Service.CreateOrgForUser | gpu-platform/internal/identity/impl.go:283-324 | A new organization owned by the user, or a refusal |
| Identity.Service.Register | gpu-platform/internal/identity/impl.go:127-179 | A new organization owned by the new user alone, with a normalized address; consistent tables stay consistent |
| Identity.Service.CreateUser | gpu-platform/internal/identity/impl.go:420-448 | A user and the membership, with the normalized role; consistent tables stay consistent when the role is assignable |
| Identity.Service.OwnerCount | gpu-platform/internal/identity/memberships.go:285-289 | The number of owner rows of the organization |
| Membership.AlwaysOwned | gpu-platform/internal/identity/memberships.go:97-264 | Over every run in which actors act with their stored role, every organization has an owner at every moment |
| Membership.ChangesExactly | gpu-platform/internal/identity/memberships.go:97-134 | A role change goes through if and only if it is another member's, to an existing role, by an owner where owners are touched, and not a demotion of the last owner |
| Membership.RemovesExactly | gpu-platform/internal/identity/memberships.go:138-175 | A removal goes through if and only if it is another member's, by an owner where owners are touched, and not of the last owner; that membership goes and no other |
| Membership.LeavesExactly | gpu-platform/internal/identity/memberships.go:189-231 | Whoever is signed in may leave if and only if not as the last owner |
| Membership.TransfersExactly | gpu-platform/internal/identity/memberships.go:236-264 | Ownership passes if and only if an owner hands it to another member; the two swap places |
| Membership.UsersMirrorMemberships | gpu-platform/internal/identity/memberships.go:586-609 | Over every run: users.org_id is set exactly when the user has one membership, in that organization and with the user's role |
| Membership.OwnersAreMade | gpu-platform/internal/identity/memberships.go:97-609 | Nobody becomes an owner but by founding, by an owner's act, or by an account created as one: no invitation and no code makes owners |
| Membership.RoleChangeIsExact | gpu-platform/internal/identity/memberships.go:97-134 | A granted role change gives exactly the target the normalized role, on the membership and on the user, and changes nobody else |
| Membership.RemoveAndRejoin | gpu-platform/internal/identity/memberships.go:158-167 | Removing a member leaves the user outside every organization, and linking them again with the role they had restores everything |
| Membership.CodesNotOverused | gpu-platform/internal/identity/memberships.go:556-563 | Over every run: no join code is used more often than it allows |
| Membership.SpentForGood | gpu-platform/internal/identity/memberships.go:440-449 | Over every run: an invitation once accepted or revoked is never accepted again |
| Membership.InviteeMayAccept | gpu-platform/internal/identity/memberships.go:293-457 | Who signed up with the invited address may accept a pending invitation, however either side wrote capitals and surrounding spaces |
| Membership.AcceptsExactly | gpu-platform/internal/identity/memberships.go:423-471 | An acceptance goes through if and only if an active user outside every organization answers an open, unexpired invitation to the own address; it gives the invited organization and role and marks that invitation |
| Membership.JoinsExactly | gpu-platform/internal/identity/memberships.go:539-609 | A code admits exactly an active user outside every organization, while neither revoked nor expired nor used up, as a plain member |
| Membership.InvitesExactly | gpu-platform/internal/identity/memberships.go:293-335 | An invitation goes out if and only if the address is not empty and no member has it; it revokes the earlier open ones to that address and never offers ownership |
| Membership.RevokesExactly | gpu-platform/internal/identity/memberships.go:361-374 | Offers are taken back by the organization that made them, while they are open |
| Membership.FoundsExactly | gpu-platform/internal/identity/impl.go:283-324 | Founding goes through if and only if an active user is outside every organization, and makes that user the owner |
| Membership.AccountsExactly | gpu-platform/internal/identity/impl.go:127-179 | New accounts: founder, colleague or outsider, with trimmed lower-case addresses on registration and sign-up |
| Membership.TransferLeavesOneOwner | gpu-platform/internal/identity/memberships.go:233-264 | After a transfer the target is the only owner if and only if nobody but actor and target owned the organization before |
| Membership.WriteNeedsFreshCount | gpu-platform/internal/identity/memberships.go:112-131 | The demoting or removing write keeps the organization owned if and only if the target is not its only owner at that moment |
| Membership.CrossedDemotionsOrphan | gpu-platform/internal/identity/memberships.go:112-134 | Two owners who demote each other, both counting before either writes, leave the organization without an owner |
| Membership.LinkNeedsFreshCheck | gpu-platform/internal/identity/impl.go:294-316 | Linking the founder keeps one membership per user if and only if the user is in no organization at that moment |
| Reservations.Service.CreateReservation | gpu-platform/internal/ops/reservations.go:77-100 | Invalid, overbooked or booked, by the two counts; on success the booking is the one row added |
| Reservations.TotalCounts | gpu-platform/internal/ops/reservations.go:77-100 | The fleet total is the number of the organization's units whose model contains the request |
| Reservations.OverlapIsShared | gpu-platform/internal/ops/reservations.go:59-75 | A booking counts against a window if and only if they share an instant |
| Reservations.ForeignersDoNotMatter | gpu-platform/internal/ops/reservations.go:59-92 | GPUs and bookings of other organizations never change an answer |
| Reservations.Service.CancelReservation | gpu-platform/internal/ops/reservations.go:128-132 | Cancels the row if it belongs to the organization |
| Reservations.SumBoundsPeak | gpu-platform/internal/ops/reservations.go:59-75 | The overlap sum bounds what is reserved at every instant of the window |
| Reservations.PeakIsExact | gpu-platform/internal/ops/reservations.go:59-63 | The sweep line over the window's start and the starts in it is the true peak: no instant of the window has more reserved, and one has as much |
| Reservations.SumIsTightExactly | gpu-platform/internal/ops/reservations.go:59-75 | The overlap sum is never less than the true peak, and equals it if and only if all live bookings that overlap the window share an instant of it |
| Reservations.CancelFrees | gpu-platform/internal/ops/reservations.go:128-132 | Cancelling frees exactly the booking's count at exactly the instants it covered; a foreign or unknown id frees nothing |
| Reservations.StatusTells | gpu-platform/internal/ops/reservations.go:35-48 | Cancelled, upcoming, active to the end instant inclusive, or expired: exactly one, told by the cancellation and the two ends |
| Reservations.ShownCountsTheEnd | gpu-platform/internal/ops/reservations.go:35-48 | What is shown as active at an instant is what is reserved then plus what ends at that very instant |
| Reservations.NeverBeyondTheMost | gpu-platform/internal/ops/reservations.go:59-100 | Over any history of bookings, cancellations and fleet changes: at every instant the live bookings of a model total at most the largest fleet of that model so far |
| Reservations.NoInstantOverbooked | gpu-platform/internal/ops/reservations.go:59-100 | With a fleet that does not shrink, the live bookings of a model fit the fleet at every instant |
| Reservations.InsertFitsExactly | gpu-platform/internal/ops/reservations.go:77-100 | Whatever its check saw: inserting a booking keeps every instant within the total if and only if the peak over its window leaves room for it |
| Reservations.CrossedBookingsFit | gpu-platform/internal/ops/reservations.go:77-92 | Of two bookings that both check before either inserts, the first fits, and both fit if and only if the second still has room at the peak the first leaves |
| Reservations.SumIsNotTight | gpu-platform/internal/ops/reservations.go:59-63 | An instance: a booking that the sum refuses and the true peak would allow |
| Reservations.CrossedBookingsOverbook | gpu-platform/internal/ops/reservations.go:77-92 | An instance: two bookings of the last GPU that both check before either inserts overbook the window |

## Left out

- Agent.ReportsStayGuarded: the reports are those the agent code builds; a foreign client speaking the protocol could reach the default branch.
- Tenancy.OwnGpusOnly: reads the type as text when it has no backslash, percent sign or underscore; other types are patterns, as in the source.
- Settlement.TimeIsTiled: says nothing about workloads whose node was removed, because a forced removal deletes the GPU rows the last slice would join.
- Exactness.SettledExactly: takes stopped_at as read inside the step that writes it; the source reads the clock before its transaction, and `Settlement.SettlementNeedsClock` says exactly when that matters.
- Interleaving.InterleavedIsCoarse: takes attaching and committing as one step. The inserts and the flip in between are invisible to other transactions and touch rows the claim has locked; `Service.ControlPlane.AttachRows` proves that the insert loop and the guarded update amount to that step.
- Interleaving.ClaimsExclusive: concerns placements against each other and against atomic reports and sweeps; statement-level interleavings inside a sweep are not modelled, `Safety.SweepUpdateNeedsLiveRow` says what its unguarded UPDATE would need.
- Membership.AlwaysOwned: takes each operation as one step; `Membership.WriteNeedsFreshCount` and `Membership.CrossedDemotionsOrphan` say what the count outside the transaction can do.
- Utilization.MeanRightAfterSweep: stops before the grouping into time buckets and the memory percentage.
- Like.SearchFilterFolded: folds ASCII letters only; collations are not modelled. Patterns that end in a lone backslash, an error in the database, match nothing here.
- Metering.Service.MeterWorkload: average utilization on usage rows, currencies and rate-card ids are not kept; the credit summary's list of recent entries is left out.
- Retention.Telemetry.DeleteBatch: takes rows in scan order where the database may take any.
- Retention.Telemetry.SweepRetention: leaves out the deletions of heartbeats and workload events, which only age out.
- Utilization.RightExactlyWhenClean: speaks of queries at a whole-hour boundary, which is what the retention boundary always is.
- Identity.Service.AcceptInvitation: folds ASCII letters only when it compares addresses.
- Physical sharing of GPUs: only the books are exclusive. A stop enqueued for a leaked container may be superseded, and a launch that was delivered but is slow may still expire and fail.
- Numeric columns: rounding to four decimals, floating-point rounding and the width of integers.
- Admission (credit and budget checks), validation of images and names, endpoints, logs and timeline stages of workloads.
- Inventory reports that move a GPU to another node or change its model; GPU health statuses, which the control plane never writes.
- Advisory locks, retries of serialization failures, notifications, audit records, session revocation, e-mail delivery, password handling and tokens.
- Reservations across models: `any` and overlapping names are counted per exact string, as in the source.
- HTTP handlers, gRPC streams, Docker, discovery, the web client, configuration and metrics.
