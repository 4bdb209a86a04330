/** The agent's side of the wire: the messages it can send, how the gateway reads them, and
    the tracker that keeps a redelivered command from running twice. */
module Agent {
  import opened Tables
  import opened Framing

  // ----- status messages

  datatype WireState = WirePending | WireRunning | WireStopping | WireStopped | WireFailed | WireUnspecified
  datatype StatusMessage = StatusMessage(workload: WorkloadId, state: WireState, message: string)

  /** Everything the agent ever reports about a workload. */
  datatype Report =
    | Stage(workload: WorkloadId, stage: string)
    | LaunchSucceeded(workload: WorkloadId)
    | LaunchFailed(workload: WorkloadId, reason: string, logs: string)
    | StopFinished(workload: WorkloadId, error: string, logs: string)
    | Reconciled(workload: WorkloadId, running: bool, message: string, logs: string)

  const STAGE_PREFIX := "STAGE:"

  function Wire(r: Report): StatusMessage {
    match r
    case Stage(w, stage) => StatusMessage(w, WirePending, STAGE_PREFIX + stage)
    case LaunchSucceeded(w) => StatusMessage(w, WireRunning, "")
    case LaunchFailed(w, reason, logs) => StatusMessage(w, WireFailed, Frame(reason, logs))
    case StopFinished(w, error, logs) => StatusMessage(w, WireStopped, Frame(error, logs))
    case Reconciled(w, running, message, logs) =>
      StatusMessage(w, if running then WireRunning else WireStopped, Frame(message, logs))
  }

  function ToWorkloadStatus(s: WireState): WorkloadStatus {
    match s
    case WireRunning => Running
    case WireStopping => Stopping
    case WireStopped => Stopped
    case WireFailed => Failed
    case WirePending => Pending
    case WireUnspecified => Pending
  }

  /** What the gateway makes of a message: a lifecycle event, or a status update. */
  datatype Handled =
    | StageEvent(workload: WorkloadId, stage: string)
    | Update(workload: WorkloadId, status: WorkloadStatus)

  function Handle(m: StatusMessage): Handled {
    if STAGE_PREFIX <= m.message then StageEvent(m.workload, m.message[|STAGE_PREFIX|..])
    else Update(m.workload, ToWorkloadStatus(m.state))
  }

  /** A status the guarded branches of UpdateStatus handle. */
  predicate Guarded(s: WorkloadStatus) { s.Running? || s.Stopped? || s.Failed? }

  /** No report of the agent reaches the unguarded default branch; stages survive the trip. */
  lemma ReportsStayGuarded(r: Report)
    ensures Handle(Wire(r)).Update? ==> Guarded(Handle(Wire(r)).status) && Handle(Wire(r)).workload == r.workload
    ensures r.Stage? ==> Handle(Wire(r)) == StageEvent(r.workload, r.stage)
  {
    if r.Stage? {
      assert (STAGE_PREFIX + r.stage)[|STAGE_PREFIX|..] == r.stage;
    }
  }

  /** What the text of a report starts with, and the status it is about. */
  function TextOf(r: Report): string {
    match r
    case Stage(_, stage) => "STAGE:" + stage
    case LaunchSucceeded(_) => ""
    case LaunchFailed(_, reason, logs) => if logs == "" then reason else reason + "\n---LOGS---\n" + logs
    case StopFinished(_, error, logs) => if logs == "" then error else error + "\n---LOGS---\n" + logs
    case Reconciled(_, _, message, logs) => if logs == "" then message else message + "\n---LOGS---\n" + logs
  }

  function StatusOf(r: Report): WorkloadStatus
    requires !r.Stage?
  {
    match r
    case LaunchSucceeded(_) => Running
    case LaunchFailed(_, _, _) => Failed
    case StopFinished(_, _, _) => Stopped
    case Reconciled(_, running, _, _) => if running then Running else Stopped
  }

  /** A status report arrives as the status it is about exactly when its text does not start with the
      stage prefix; otherwise it is taken for a stage and the status is lost. */
  lemma ReportArrivesExactly(r: Report)
    requires !r.Stage?
    ensures Handle(Wire(r)) ==
              if "STAGE:" <= TextOf(r) then StageEvent(r.workload, TextOf(r)[6..]) else Update(r.workload, StatusOf(r))
  {
  }

  /** For instance, a launch that fails with this reason is never reported as failed. */
  lemma StageLikeReasonIsLost(w: WorkloadId, logs: string)
    ensures Handle(Wire(LaunchFailed(w, "STAGE: pull failed", logs))).StageEvent?
  {
    var text := TextOf(LaunchFailed(w, "STAGE: pull failed", logs));
    assert text[..6] == "STAGE:";
    ReportArrivesExactly(LaunchFailed(w, "STAGE: pull failed", logs));
  }

  /** The prefix is what protects the branch: exactly the pending, stopping and unspecified
      messages without it get through. */
  lemma DefaultBranchReachedBy(m: StatusMessage)
    ensures (Handle(m).Update? && !Guarded(Handle(m).status)) <==>
            !("STAGE:" <= m.message) && (m.state.WirePending? || m.state.WireStopping? || m.state.WireUnspecified?)
  {
    match m.state { case WirePending => case WireRunning => case WireStopping => case WireStopped =>
                    case WireFailed => case WireUnspecified => }
  }
}

/** cmdTracker: at-most-once execution within a window of finished commands. */
module CommandTracker {
  import opened Tables

  type Id = string
  datatype Answer = Answer(ok: bool, error: string)
  const CACHE_SIZE := 256

  // ----- the tracker as a value

  datatype State = State(inflight: set<Id>, done: map<Id, Answer>, order: seq<Id>)
  const START := State({}, map[], [])

  datatype Begun = Fresh | Cached(answer: Answer) | InFlight

  function OnBegin(s: State, id: Id): (State, Begun) {
    if id in s.done then (s, Cached(s.done[id]))
    else if id in s.inflight then (s, InFlight)
    else (s.(inflight := s.inflight + {id}), Fresh)
  }

  /** Drops the oldest finished commands until the cache fits. */
  function Trim(done: map<Id, Answer>, order: seq<Id>): (map<Id, Answer>, seq<Id>)
    decreases |order|
  {
    if |order| <= CACHE_SIZE then (done, order) else Trim(done - {order[0]}, order[1..])
  }

  function OnFinish(s: State, id: Id, res: Answer): State {
    var (done, order) := Trim(s.done[id := res], s.order + [id]);
    State(s.inflight - {id}, done, order)
  }

  ghost predicate Distinct(order: seq<Id>) {
    forall i, j :: 0 <= i < j < |order| ==> order[i] != order[j]
  }

  /** The cache is the window of the last finished commands; nothing is both done and in flight. */
  ghost predicate Valid(s: State) {
    && Distinct(s.order) && |s.order| <= CACHE_SIZE
    && (forall id :: id in s.done <==> id in s.order)
    && s.inflight !! s.done.Keys
  }

  lemma FinishKeepsValid(s: State, id: Id, res: Answer)
    requires Valid(s) && id in s.inflight
    ensures Valid(OnFinish(s, id, res))
    ensures var t := OnFinish(s, id, res);
            var appended := s.order + [id];
            t.order == (if |s.order| < CACHE_SIZE then appended else appended[1..]) &&
            t.inflight == s.inflight - {id} &&
            id in t.done && t.done[id] == res &&
              (forall x | x in t.done && x != id :: x in s.done && t.done[x] == s.done[x])
  {
    var t := OnFinish(s, id, res);
    var appended := s.order + [id];
    assert id !in s.order;
    assert Distinct(appended);
    if |s.order| == CACHE_SIZE {
      var done1 := s.done[id := res];
      assert Trim(done1, appended) == Trim(done1 - {appended[0]}, appended[1..]);
      assert t.order == appended[1..] && t.done == done1 - {appended[0]};
      forall x ensures x in t.done <==> x in t.order {
        if x in appended { var k :| 0 <= k < |appended| && appended[k] == x; if k > 0 { assert t.order[k - 1] == x; } }
        if x in t.order { var k :| 0 <= k < |t.order| && t.order[k] == x; assert appended[k + 1] == x; }
      }
      assert t.order[|t.order| - 1] == id;
    } else {
      assert t.order == appended;
      assert appended[|s.order|] == id;
    }
  }

  // ----- the object

  class Tracker {
    var inflight: set<Id>
    var done: map<Id, Answer>
    var order: seq<Id>

    function Value(): State reads this { State(inflight, done, order) }

    constructor ()
      ensures Value() == START
    {
      inflight, done, order := {}, map[], [];
    }

    method Begin(id: Id) returns (isNew: bool, cached: Option<Answer>)
      modifies this
      ensures Value() == OnBegin(old(Value()), id).0
      ensures var b := OnBegin(old(Value()), id).1;
              isNew == b.Fresh? && cached == if b.Cached? then Some(b.answer) else None
    {
      if id in done { return false, Some(done[id]); }
      if id in inflight { return false, None; }
      inflight := inflight + {id};
      return true, None;
    }

    method Finish(id: Id, res: Answer)
      modifies this
      ensures Value() == OnFinish(old(Value()), id, res)
    {
      inflight := inflight - {id};
      done := done[id := res];
      order := order + [id];
      ghost var goal := Trim(done, order);
      while |order| > CACHE_SIZE
        invariant Trim(done, order) == goal
        invariant inflight == old(inflight) - {id}
      {
        done := done - {order[0]};
        order := order[1..];
      }
    }
  }

  // ----- histories

  datatype Call = BeginCall(id: Id) | FinishCall(id: Id, res: Answer)

  /** The tracker after the first k calls of a history. */
  function At(history: seq<Call>, k: nat): State
    requires k <= |history|
  {
    if k == 0 then START
    else
      match history[k - 1]
      case BeginCall(id) => OnBegin(At(history, k - 1), id).0
      case FinishCall(id, res) => OnFinish(At(history, k - 1), id, res)
  }

  /** Each fresh begin is finished at most once: only a command in flight is ever finished. */
  ghost predicate WellUsed(history: seq<Call>) {
    forall k :: 0 <= k < |history| ==> UsedAt(history, k)
  }

  predicate UsedAt(history: seq<Call>, k: nat)
    requires k < |history|
  {
    history[k].FinishCall? ==> history[k].id in At(history, k).inflight
  }

  predicate FreshAt(history: seq<Call>, k: nat)
    requires k < |history|
  {
    history[k].BeginCall? && OnBegin(At(history, k), history[k].id).1.Fresh?
  }

  /** Over every well-used history the tracker stays valid. */
  lemma {:induction false} AlwaysValid(history: seq<Call>, k: nat)
    requires WellUsed(history) && k <= |history|
    ensures Valid(At(history, k)) && |At(history, k).order| <= 256
    decreases k
  {
    if k > 0 {
      AlwaysValid(history, k - 1);
      assert UsedAt(history, k - 1);
      if history[k - 1].FinishCall? {
        FinishKeepsValid(At(history, k - 1), history[k - 1].id, history[k - 1].res);
      }
    }
  }

  lemma OneCall(history: seq<Call>, k: nat)
    requires WellUsed(history) && k < |history|
    ensures Valid(At(history, k)) && Valid(At(history, k + 1))
    ensures var s, t := At(history, k), At(history, k + 1);
            match history[k]
            case BeginCall(id) => t == OnBegin(s, id).0
            case FinishCall(id, res) => id in s.inflight && t == OnFinish(s, id, res)
  {
    AlwaysValid(history, k);
    AlwaysValid(history, k + 1);
    assert UsedAt(history, k);
  }

  /** Between two fresh begins of the same id there is the finish of the first. */
  lemma {:induction false} StaysInFlight(history: seq<Call>, i: nat, j: nat)
    requires WellUsed(history) && i < j <= |history| && FreshAt(history, i)
    requires forall k :: i < k < j ==> !(history[k].FinishCall? && history[k].id == history[i].id)
    ensures history[i].id in At(history, j).inflight
    decreases j
  {
    OneCall(history, j - 1);
    if j > i + 1 {
      StaysInFlight(history, i, j - 1);
      var s := At(history, j - 1);
      if history[j - 1].FinishCall? { FinishKeepsValid(s, history[j - 1].id, history[j - 1].res); }
    }
  }

  /** After id finished at f, the commands that finished since, in order, are the tail of the window. */
  function FinishedSince(history: seq<Call>, f: nat, j: nat): seq<Id>
    requires f <= j <= |history|
  {
    if j == f then []
    else FinishedSince(history, f, j - 1) + (if history[j - 1].FinishCall? then [history[j - 1].id] else [])
  }

  /** id is cached with its answer, and the commands finished since sit right behind it. */
  ghost predicate InWindow(s: State, id: Id, res: Answer, since: seq<Id>) {
    |s.order| > |since| && s.order[|s.order| - |since| - 1..] == [id] + since && id in s.done && s.done[id] == res
  }

  /** Finishing x appends it and, when the cache is full, drops the oldest. */
  lemma FinishOrder(p: State, x: Id, resX: Answer)
    requires Valid(p) && x in p.inflight
    ensures var s := OnFinish(p, x, resX);
            s.order == (if |p.order| < CACHE_SIZE then p.order else p.order[1..]) + [x] &&
            forall id | id in p.done && id != x && (|p.order| < CACHE_SIZE || id != p.order[0]) ::
              id in s.done && s.done[id] == p.done[id]
  {
    var appended, done := p.order + [x], p.done[x := resX];
    if |p.order| < CACHE_SIZE {
      assert Trim(done, appended) == (done, appended);
    } else {
      assert appended[1..] == p.order[1..] + [x];
      assert Trim(done - {appended[0]}, appended[1..]) == (done - {appended[0]}, appended[1..]);
    }
  }

  lemma WindowTail(order: seq<Id>, id: Id, since: seq<Id>, x: Id)
    requires |order| > |since| && order[|order| - |since| - 1..] == [id] + since
    ensures id in order && order[|order| - |since| - 1] == id
    ensures (order + [x])[|order| - |since| - 1..] == [id] + (since + [x])
    ensures |order| > |since| + 1 ==> (order[1..] + [x])[|order| - |since| - 2..] == [id] + (since + [x])
  {
    var at := |order| - |since| - 1;
    assert order[at..][0] == order[at];
    assert (order + [x])[at..] == order[at..] + [x] == [id] + (since + [x]);
    if |order| > |since| + 1 { assert (order[1..] + [x])[at - 1..] == order[at..] + [x]; }
  }

  lemma FinishSlides(p: State, id: Id, res: Answer, since: seq<Id>, x: Id, resX: Answer)
    requires Valid(p) && InWindow(p, id, res, since) && x in p.inflight && |since| + 1 < CACHE_SIZE
    ensures InWindow(OnFinish(p, x, resX), id, res, since + [x])
  {
    FinishOrder(p, x, resX);
    WindowTail(p.order, id, since, x);
    assert id in p.done && id != x;
    if |p.order| >= CACHE_SIZE { assert p.order[|p.order| - |since| - 1] == id && p.order[0] != id; }
  }

  lemma FinishEnters(p: State, id: Id, res: Answer)
    requires Valid(p) && id in p.inflight
    ensures InWindow(OnFinish(p, id, res), id, res, [])
  {
    FinishKeepsValid(p, id, res);
    var s := OnFinish(p, id, res);
    assert s.order[|s.order| - 1..] == [id] + [];
  }

  /** As long as fewer than 256 commands finished since, id keeps its place and its first answer. */
  lemma {:induction false} StillCached(history: seq<Call>, f: nat, j: nat)
    requires WellUsed(history) && f < j <= |history| && history[f].FinishCall?
    requires |FinishedSince(history, f + 1, j)| < CACHE_SIZE
    ensures InWindow(At(history, j), history[f].id, history[f].res, FinishedSince(history, f + 1, j))
    decreases j
  {
    OneCall(history, j - 1);
    var p, s := At(history, j - 1), At(history, j);
    var id, res := history[f].id, history[f].res;
    if j == f + 1 {
      FinishEnters(p, id, res);
    } else {
      var was := FinishedSince(history, f + 1, j - 1);
      StillCached(history, f, j - 1);
      match history[j - 1]
      case FinishCall(x, resX) => FinishSlides(p, id, res, was, x, resX);
      case BeginCall(x) => assert FinishedSince(history, f + 1, j) == was + [] == was;
    }
  }

  /** A duplicate delivered after the finish gets the first answer back while the window lasts. */
  lemma DuplicateGetsFirstAnswer(history: seq<Call>, f: nat, j: nat)
    requires WellUsed(history) && f < j < |history| && history[f].FinishCall?
    requires |FinishedSince(history, f + 1, j)| < 256
    ensures OnBegin(At(history, j), history[f].id).1 == Cached(history[f].res)
  {
    StillCached(history, f, j);
  }

  lemma {:induction false} SinceGrows(history: seq<Call>, f: nat, j: nat)
    requires f < j <= |history|
    ensures |FinishedSince(history, f, j - 1)| <= |FinishedSince(history, f, j)|
    ensures |FinishedSince(history, f, j)| <= |FinishedSince(history, f, j - 1)| + 1
    ensures FinishedSince(history, f, j - 1) <= FinishedSince(history, f, j)
  {
  }

  lemma {:induction false} WindowFilled(history: seq<Call>, f: nat, j: nat) returns (k: nat)
    requires f <= j <= |history| && |FinishedSince(history, f, j)| >= CACHE_SIZE
    ensures f < k <= j && |FinishedSince(history, f, k)| == CACHE_SIZE &&
            |FinishedSince(history, f, k - 1)| == CACHE_SIZE - 1
    ensures FinishedSince(history, f, k) <= FinishedSince(history, f, j)
    decreases j
  {
    SinceGrows(history, f, j);
    if |FinishedSince(history, f, j - 1)| < CACHE_SIZE { k := j; }
    else { k := WindowFilled(history, f, j - 1); }
  }

  /** The 256 commands whose finishing pushes id out are distinct and none of them is id. */
  lemma WindowDistinct(p: State, id: Id, res: Answer, since: seq<Id>, x: Id)
    requires Valid(p) && InWindow(p, id, res, since) && x in p.inflight
    ensures Distinct(since + [x]) && id !in since + [x]
  {
    var at := |p.order| - |since| - 1;
    var all := [id] + since;
    forall a | 0 <= a < |all| ensures all[a] == p.order[at + a] {
      assert p.order[at..][a] == all[a];
    }
    assert x !in p.order;
    assert forall a, b :: 0 <= a < b < |all| ==> all[a] != all[b];
    assert forall a :: 0 <= a < |all| ==> all[a] != x;
    forall a | 0 <= a < |since| ensures since[a] != id {
      assert since[a] == all[a + 1] && all[0] == id;
    }
    assert all[0] == id;
    forall a, b | 0 <= a < b < |since| + 1 ensures (since + [x])[a] != (since + [x])[b] {
      assert since[a] == all[a + 1];
      if b < |since| { assert since[b] == all[b + 1]; }
    }
  }

  lemma LastFinishes(history: seq<Call>, f: nat, k: nat)
    requires f < k <= |history| && |FinishedSince(history, f, k)| > |FinishedSince(history, f, k - 1)|
    ensures history[k - 1].FinishCall? &&
            FinishedSince(history, f, k) == FinishedSince(history, f, k - 1) + [history[k - 1].id]
  {
  }

  lemma BeforeFilling(history: seq<Call>, f: nat, j: nat)
    requires WellUsed(history) && f < j < |history| && history[f].FinishCall? && history[j].FinishCall?
    requires |FinishedSince(history, f + 1, j)| < CACHE_SIZE
    ensures var p := At(history, j);
            Valid(p) && InWindow(p, history[f].id, history[f].res, FinishedSince(history, f + 1, j)) &&
              history[j].id in p.inflight
  {
    StillCached(history, f, j);
    AlwaysValid(history, j);
    assert UsedAt(history, j);
  }

  lemma FillsTheWindow(history: seq<Call>, f: nat, k: nat)
    requires WellUsed(history) && f + 1 < k <= |history| && history[f].FinishCall?
    requires |FinishedSince(history, f + 1, k)| == CACHE_SIZE
    requires |FinishedSince(history, f + 1, k - 1)| == CACHE_SIZE - 1
    ensures Distinct(FinishedSince(history, f + 1, k)) && history[f].id !in FinishedSince(history, f + 1, k)
  {
    LastFinishes(history, f + 1, k);
    BeforeFilling(history, f, k - 1);
    WindowDistinct(At(history, k - 1), history[f].id, history[f].res,
                   FinishedSince(history, f + 1, k - 1), history[k - 1].id);
  }

  /** 256 pairwise distinct commands other than id finished between f and j. */
  ghost predicate PushedOut(history: seq<Call>, id: Id, f: nat, j: nat)
    requires f < j <= |history|
  {
    var since := FinishedSince(history, f + 1, j);
    |since| >= 256 && Distinct(since[..256]) && id !in since[..256]
  }

  lemma FreshAfterFinish(history: seq<Call>, f: nat, j: nat)
    requires WellUsed(history) && f < j < |history| && history[f].FinishCall?
    requires FreshAt(history, j) && history[j].id == history[f].id
    ensures PushedOut(history, history[f].id, f, j)
  {
    var since := FinishedSince(history, f + 1, j);
    if |since| < CACHE_SIZE {
      StillCached(history, f, j);
      assert false;
    }
    var k := WindowFilled(history, f + 1, j);
    FillsTheWindow(history, f, k);
    assert since[..CACHE_SIZE] == FinishedSince(history, f + 1, k);
  }

  /** At most once within the window: an id is fresh a second time only after its first run
      finished, and after 256 pairwise distinct other commands finished since. */
  lemma FreshTwice(history: seq<Call>, i: nat, j: nat)
    requires WellUsed(history) && i < j < |history|
    requires FreshAt(history, i) && FreshAt(history, j) && history[i].id == history[j].id
    ensures exists f :: i < f < j && history[f].FinishCall? && history[f].id == history[i].id &&
                        PushedOut(history, history[i].id, f, j)
  {
    var id := history[i].id;
    if forall k :: i < k < j ==> !(history[k].FinishCall? && history[k].id == id) {
      StaysInFlight(history, i, j);
      assert false;
    }
    var f :| i < f < j && history[f].FinishCall? && history[f].id == id;
    FreshAfterFinish(history, f, j);
  }
}
