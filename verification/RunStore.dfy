/**
 The state behind the work-item and run routes, and every transaction the routes and the scheduler
 run against it (runtime/state/src/sqlite.rs). One `Action` is one atomic write of the backend;
 everything between two actions may be interleaved with anybody else's.

 Four components are bookkeeping of the model rather than columns: `Item.claimedAt` is the length of
 the run's log when the current lease was handed out (the row keeps `claimed_at`), `Item.heldSince` the
 same for the claim that lease goes back to, through any re-attachments, `granted` is the set of leases
 whose fence some worker was told, and `dispatching` is the set of nodes for which the scheduler has
 written `NodeScheduled` and not yet enqueued the item.
 */
module RunStore {
  import opened Wrappers
  import opened Workflow
  import opened EventLog
  import opened Fences
  import opened Approvals
  import opened Guard

  type WorkflowKey(==, !new)
  type WorkerId(==, !new)
  type ItemId = nat

  datatype Ir = Ir(nodes: map<NodeId, NodeDef>, start: NodeId)

  datatype Run = Run(workflow: WorkflowKey, status: WorkflowStatus, log: Log)

  datatype ItemStatus = Queued | Claimed | Completed | Failed | DeadLettered
  {
    predicate Settled() {
      Completed? || Failed? || DeadLettered?
    }
  }

  datatype Item = Item(
    run: RunId,
    node: NodeId,
    payload: Payload,
    attempt: nat,
    maxAttempts: nat,
    status: ItemStatus,
    worker: Option<WorkerId>,
    fence: int,
    epoch: nat,
    lastLease: Option<(WorkerId, int)>,
    claimedAt: nat,
    heldSince: nat)

  datatype Store = Store(
    workflows: map<WorkflowKey, Ir>,
    runs: map<RunId, Run>,
    items: map<ItemId, Item>,
    term: nat,
    granted: set<(ItemId, int)>,
    dispatching: set<(RunId, NodeId)>)

  const EmptyStore := Store(map[], map[], map[], 0, {}, {})

  /** What a fenced commit records: a result, or a permanent refusal. */
  datatype Outcome = Done(output: Output) | Refused

  datatype Action =
    | StoreWorkflow(key: WorkflowKey, ir: Ir)
    | StartExecution(run: RunId, key: WorkflowKey, initiator: Option<Principal>, item: ItemId,
                     payload: Payload, maxAttempts: nat, now: Time)
    | ClaimItem(item: ItemId, worker: WorkerId)
    | ExpireLease(item: ItemId, now: Time)
    | FailItem(item: ItemId)
    | CommitTurn(item: ItemId, fence: int, run: RunId, node: NodeId, outcome: Outcome, now: Time)
    | SettleHeld(item: ItemId, fence: int)
    | WithdrawItem(item: ItemId, fence: int)
    | Reattach(item: ItemId, worker: WorkerId, lost: int)
    | ReleaseItem(item: ItemId, fence: int)
    | RaiseRequest(item: ItemId, request: Request, now: Time)
    | RecordDecision(run: RunId, ruling: Ruling, decision: Decision, principal: Option<Principal>, now: Time)
    | RecordExpiry(run: RunId, node: NodeId, answered: nat, sweptAt: Time, now: Time)
    | RecordEscalation(run: RunId, node: NodeId, answered: nat, now: Time)
    | RecordViolation(run: RunId, node: NodeId, now: Time)
    | RecordUnknown(run: RunId, now: Time)
    | FinishExecution(run: RunId, status: WorkflowStatus, now: Time)
    | FailRejectedNode(run: RunId, node: NodeId, now: Time)
    | SkipNode(run: RunId, node: NodeId, now: Time)
    | ScheduleNode(run: RunId, node: NodeId, now: Time)
    | EnqueueItem(item: ItemId, run: RunId, node: NodeId, payload: Payload, maxAttempts: nat)
    | RaiseTerm(term: nat)
    // The scheduler's lease sweep, a fenced completion that could not read its item, an in-process worker's
    // start event and the paused-to-running flip each write half of what the others write whole.
    | SettleBlind(item: ItemId, fence: int)
    // The sweep writes the attempt it read earlier, plus one.
    | SweepRequeue(item: ItemId, read: nat)
    | SweepDeadLetter(item: ItemId, read: nat)
    | SweepRecordFailure(run: RunId, node: NodeId, retryable: bool, now: Time)
    | SweepRecordRetry(run: RunId, node: NodeId, now: Time)
    | RecordStarted(run: RunId, node: NodeId, now: Time)
    | ResumeRun(run: RunId)

  /** The steps that are half of a write the code makes in two. */
  predicate SplitWrite(a: Action) {
    || a.SettleBlind? || a.SweepRequeue? || a.SweepDeadLetter? || a.SweepRecordFailure? || a.SweepRecordRetry?
    || a.RecordStarted? || a.ResumeRun?
  }

  // ---------------------------------------------------------------------------
  // Transactions
  // ---------------------------------------------------------------------------

  function Append(s: Store, r: RunId, kind: EventKind, now: Time): Store {
    if r !in s.runs then s
    else s.(runs := s.runs[r := s.runs[r].(log := s.runs[r].log + [Event(kind, now)])])
  }

  function SetItem(s: Store, i: ItemId, it: Item): Store {
    s.(items := s.items[i := it])
  }

  predicate Terminal(s: Store, r: RunId) {
    r in s.runs && s.runs[r].status.IsTerminal()
  }

  predicate LiveRun(s: Store, r: RunId) {
    r in s.runs && !s.runs[r].status.IsTerminal()
  }

  /** The guard on every fenced settle: the item is claimed, under exactly this fence. */
  predicate HeldUnder(s: Store, i: ItemId, fence: int) {
    i in s.items && s.items[i].status.Claimed? && s.items[i].fence == fence
  }

  function LogOf(s: Store, r: RunId): Log {
    if r in s.runs then s.runs[r].log else []
  }

  function NewItem(run: RunId, node: NodeId, payload: Payload, maxAttempts: nat): Item {
    Item(run, node, payload, 0, maxAttempts, Queued, None, 0, 0, None, 0, 0)
  }

  function ApplyStart(s: Store, a: Action): Store
    requires a.StartExecution?
  {
    if a.run in s.runs || a.item in s.items || a.key !in s.workflows then s
    else
      var start := s.workflows[a.key].start;
      var log := [Event(WorkflowStarted(a.initiator), a.now), Event(NodeScheduled(start), a.now)];
      s.(runs := s.runs[a.run := Run(a.key, Running, log)],
         items := s.items[a.item := NewItem(a.run, start, a.payload, a.maxAttempts)])
  }

  function ApplyClaim(s: Store, i: ItemId, worker: WorkerId): Store {
    if i !in s.items || !s.items[i].status.Queued? then s
    else
      var it := s.items[i];
      var epoch := it.epoch + 1;
      SetItem(s, i, it.(status := Claimed, worker := Some(worker), epoch := epoch,
                        fence := Mint(s.term, epoch), claimedAt := |LogOf(s, it.run)|,
                        heldSince := |LogOf(s, it.run)|))
  }

  /** The row of item `i` as a claim by `worker` leaves it: a new epoch, and a fence minted for it. */
  function Leased(s: Store, i: ItemId, worker: WorkerId): Item
    requires i in s.items
  {
    var it := s.items[i];
    var now := |LogOf(s, it.run)|;
    Item(it.run, it.node, it.payload, it.attempt, it.maxAttempts, Claimed, Some(worker),
         Mint(s.term, it.epoch + 1), it.epoch + 1, it.lastLease, now, now)
  }

  function Requeued(it: Item): Item {
    it.(status := Queued, lastLease := if it.worker.Some? then Some((it.worker.value, it.fence)) else None,
        worker := None, fence := 0, epoch := it.epoch + 1, attempt := it.attempt + 1)
  }

  /** The claim path's expiry of one lapsed lease: the re-queue and both events in one write. */
  function ApplyExpire(s: Store, i: ItemId, now: Time): Store {
    if i !in s.items || !s.items[i].status.Claimed? then s
    else
      var it := s.items[i];
      if Terminal(s, it.run) then SetItem(s, i, it.(status := ItemStatus.Failed, worker := None))
      else if it.attempt + 1 >= it.maxAttempts then s
      else Append(Append(SetItem(s, i, Requeued(it)), it.run, NodeFailed(it.node, true), now),
                  it.run, RetryScheduled(it.node), now)
  }

  function OutcomeEvent(n: NodeId, outcome: Outcome): EventKind {
    match outcome
    case Done(output) => NodeCompleted(n, output)
    case Refused => NodeFailed(n, false)
  }

  /** `commit_turn_unless_terminal`: the terminal check, the fenced settle and the event, one write.
      It settles by item and fence but files the event under the coordinates it is given. */
  function ApplyCommit(s: Store, i: ItemId, fence: int, r: RunId, n: NodeId, outcome: Outcome, now: Time): Store {
    if !HeldUnder(s, i, fence) then s
    else if Terminal(s, r) then SetItem(s, i, s.items[i].(status := ItemStatus.Failed, worker := None))
    else
      var settled := if outcome.Done? then s.items[i].(status := ItemStatus.Completed)
                     else s.items[i].(status := ItemStatus.Failed, worker := None);
      Append(SetItem(s, i, settled), r, OutcomeEvent(n, outcome), now)
  }

  /** `complete_work_item_fenced`: the settle alone, with no event. */
  function ApplySettle(s: Store, i: ItemId, fence: int): Store {
    if HeldUnder(s, i, fence) then SetItem(s, i, s.items[i].(status := ItemStatus.Completed)) else s
  }

  predicate CanReattach(s: Store, i: ItemId, worker: WorkerId, lost: int) {
    && i in s.items
    && s.items[i].status.Queued?
    && s.items[i].worker.None?
    && s.items[i].lastLease == Some((worker, lost))
    && s.items[i].epoch == EpochAfterExpiryOf(lost)
  }

  function ApplyReattach(s: Store, i: ItemId, worker: WorkerId, lost: int): Store {
    if !CanReattach(s, i, worker, lost) then s
    else
      var it := s.items[i];
      var epoch := it.epoch + 1;
      var fence := Mint(s.term, epoch);
      SetItem(s, i, it.(status := Claimed, worker := Some(worker), epoch := epoch, fence := fence,
                        attempt := if it.attempt > 0 then it.attempt - 1 else 0, lastLease := None,
                        claimedAt := |LogOf(s, it.run)|))
      .(granted := if (i, lost) in s.granted then s.granted + {(i, fence)} else s.granted)
  }

  /** `append_event_if`: the liveness check, the condition on the whole log and the append, one write. */
  function AppendIf(s: Store, r: RunId, condition: bool, kind: EventKind, now: Time): Store {
    if LiveRun(s, r) && condition then Append(s, r, kind, now) else s
  }

  function EndEvent(status: WorkflowStatus): EventKind {
    match status
    case Cancelled => WorkflowCancelled
    case Failed => WorkflowFailed
    case _ => WorkflowCompleted
  }

  /** `finish_execution`: the terminal check, the status and the event, one write. */
  function ApplyFinish(s: Store, r: RunId, status: WorkflowStatus, now: Time): Store {
    if !LiveRun(s, r) || !status.IsTerminal() then s
    else
      var run := s.runs[r];
      s.(runs := s.runs[r := run.(status := status, log := run.log + [Event(EndEvent(status), now)])])
  }

  function DecisionEvent(ruling: Ruling, decision: Decision, principal: Option<Principal>): EventKind {
    ApprovalReceived(ruling.node, decision, principal, ruling.digest, ruling.answered)
  }

  function Apply(s: Store, a: Action): Store {
    match a
    case StoreWorkflow(key, ir) => if key in s.workflows then s else s.(workflows := s.workflows[key := ir])
    case StartExecution(_, _, _, _, _, _, _) => ApplyStart(s, a)
    case ClaimItem(i, worker) => ApplyClaim(s, i, worker)
    case ExpireLease(i, now) => ApplyExpire(s, i, now)
    case FailItem(i) => if i in s.items then SetItem(s, i, s.items[i].(status := ItemStatus.Failed, worker := None)) else s
    case CommitTurn(i, fence, r, n, outcome, now) => ApplyCommit(s, i, fence, r, n, outcome, now)
    case SettleHeld(i, fence) => ApplySettle(s, i, fence)
    case SettleBlind(i, fence) => ApplySettle(s, i, fence)
    case WithdrawItem(i, fence) =>
      if HeldUnder(s, i, fence) then SetItem(s, i, s.items[i].(status := ItemStatus.Failed, worker := None)) else s
    case Reattach(i, worker, lost) => ApplyReattach(s, i, worker, lost)
    case ReleaseItem(i, fence) => s.(granted := s.granted + {(i, fence)})
    case RaiseRequest(i, request, now) =>
      if i in s.items then Append(s, s.items[i].run, ToolApprovalRequired(s.items[i].node, request), now) else s
    case RecordDecision(r, ruling, decision, principal, now) =>
      AppendIf(s, r, StillOpen(LogOf(s, r), ruling.node, ruling.answered, now),
               DecisionEvent(ruling, decision, principal), now)
    case RecordExpiry(r, n, answered, _, now) =>
      AppendIf(s, r, StillPending(LogOf(s, r), n, answered), ApprovalExpired(n, answered), now)
    case RecordEscalation(r, n, answered, now) =>
      AppendIf(s, r, StillPending(LogOf(s, r), n, answered) && NotEscalated(LogOf(s, r), n, answered),
               ApprovalEscalated(n, answered), now)
    case RecordViolation(r, n, now) => Append(s, r, PolicyViolation(n), now)
    case RecordUnknown(r, now) => Append(s, r, Unknown, now)
    case FinishExecution(r, status, now) => ApplyFinish(s, r, status, now)
    case FailRejectedNode(r, n, now) => Append(s, r, NodeFailed(n, false), now)
    case SkipNode(r, n, now) => Append(s, r, NodeSkipped(n), now)
    case ScheduleNode(r, n, now) =>
      if r in s.runs then Append(s, r, NodeScheduled(n), now).(dispatching := s.dispatching + {(r, n)}) else s
    case EnqueueItem(i, r, n, payload, maxAttempts) =>
      if i in s.items || r !in s.runs then s
      else SetItem(s, i, NewItem(r, n, payload, maxAttempts)).(dispatching := s.dispatching - {(r, n)})
    case RaiseTerm(term) => s.(term := if term > s.term then term else s.term)
    case SweepRequeue(i, read) =>
      if i in s.items && s.items[i].status.Claimed?
      then SetItem(s, i, Requeued(s.items[i]).(attempt := read + 1)) else s
    case SweepDeadLetter(i, read) =>
      if i in s.items && s.items[i].status.Claimed?
      then SetItem(s, i, s.items[i].(status := DeadLettered, worker := None, attempt := read + 1)) else s
    case SweepRecordFailure(r, n, retryable, now) => Append(s, r, NodeFailed(n, retryable), now)
    case SweepRecordRetry(r, n, now) => Append(s, r, RetryScheduled(n), now)
    case RecordStarted(r, n, now) => Append(s, r, NodeStarted(n), now)
    case ResumeRun(r) => if r in s.runs then s.(runs := s.runs[r := s.runs[r].(status := Running)]) else s
  }

  /** A fenced commit that recorded something. */
  predicate Commits(s: Store, a: Action) {
    a.CommitTurn? && HeldUnder(s, a.item, a.fence) && !Terminal(s, a.run)
  }

  // ---------------------------------------------------------------------------
  // What the routes rely on before each write
  // ---------------------------------------------------------------------------

  /** The stored definition of an item's node; a run's workflow key comes from its execution record. */
  function DefOf(s: Store, i: ItemId): Option<NodeDef> {
    if i !in s.items || s.items[i].run !in s.runs then None
    else
      var key := s.runs[s.items[i].run].workflow;
      if key !in s.workflows || s.items[i].node !in s.workflows[key].nodes then None
      else Some(s.workflows[key].nodes[s.items[i].node])
  }

  /** The firing guard gave `outcome` for item `i`: it read the log when it was `log[..k]`, and counted
      completions when it was `log[..m]`. Both reads are behind us, so both are prefixes of today's log. */
  predicate Fired(s: Store, i: ItemId, tenant: Rule, k: nat, m: nat, outcome: Guard.Outcome, deadline: Deadline) {
    var def := DefOf(s, i);
    && def.Some?
    && var it := s.items[i];
    && k <= m <= |s.runs[it.run].log|
    && var log := s.runs[it.run].log;
    && GuardFire(def.value, tenant, log[..k], it.run, it.node, it.payload, Completions(log[..m], it.node), deadline)
       == outcome
  }

  const NoDeadline := Deadline(Unset, Unset)

  /** The claim gate allowed item `i`, on a read made when the log had at least `from` entries. */
  predicate AllowedSince(s: Store, i: ItemId, from: nat) {
    && i in s.items
    && exists tenant: Rule, k, m | from <= k <= m <= |LogOf(s, s.items[i].run)| ::
         Fired(s, i, tenant, k, m, Allow, NoDeadline)
  }

  /** At some earlier moment the claim gate allowed item `i`. */
  predicate WasAllowed(s: Store, i: ItemId) {
    AllowedSince(s, i, 0)
  }

  /** The lease of `fence` is the item's own, or the one it lost last and may be re-attached. */
  predicate Current(it: Item, fence: int) {
    || (it.status.Claimed? && it.fence == fence)
    || (it.status.Queued? && it.lastLease.Some? && it.lastLease.value.1 == fence
        && it.epoch == EpochAfterExpiryOf(fence))
  }

  /** A fence may be told to a worker: the claim gate allowed the item, and under this very lease if the lease
      still means anything. */
  predicate MayRelease(s: Store, i: ItemId, fence: int) {
    && WasAllowed(s, i)
    && FenceEpoch(fence) <= s.items[i].epoch
    && (Current(s.items[i], fence) ==> AllowedSince(s, i, s.items[i].heldSince))
  }

  /** At some earlier moment the completion gate allowed a result for item `i`. */
  predicate Completable(s: Store, i: ItemId, tenant: Rule, k: nat, m: nat) {
    var def := DefOf(s, i);
    && def.Some?
    && var it := s.items[i];
    && k <= m <= |s.runs[it.run].log|
    && var log := s.runs[it.run].log;
    && GuardComplete(def.value, tenant, log[..k], it.run, it.node, it.payload, Completions(log[..m], it.node)).Allow?
  }

  predicate WasCompletable(s: Store, i: ItemId) {
    && i in s.items
    && exists tenant: Rule, k, m | 0 <= k <= m <= |LogOf(s, s.items[i].run)| :: Completable(s, i, tenant, k, m)
  }

  /** Since this lease was handed out, the node was seen withheld: pending or rejected. */
  predicate SeenWithheld(s: Store, i: ItemId) {
    && i in s.items
    && var log := LogOf(s, s.items[i].run);
    && exists k | s.items[i].claimedAt <= k <= |log| :: ApprovalFold(log[..k], s.items[i].node).Withholds()
  }

  /** The write is one the code makes: its arguments come from reads that are still prefixes of the log,
      from engine-written rows, or from a worker's own lease. */
  predicate Legal(cfg: Config, s: Store, a: Action) {
    match a
    case StartExecution(r, key, _, i, _, _, _) => r !in s.runs && i !in s.items && key in s.workflows
    case ClaimItem(i, _) => i in s.items ==> s.items[i].epoch + 1 < EPOCHS
    case ExpireLease(i, _) => i in s.items ==> s.items[i].epoch + 1 < EPOCHS
    case SweepRequeue(i, read) =>
      i in s.items ==> s.items[i].epoch + 1 < EPOCHS && read + 1 < s.items[i].maxAttempts
    case SweepDeadLetter(i, read) => i in s.items ==> read + 1 >= s.items[i].maxAttempts
    case Reattach(i, _, _) => i in s.items ==> s.items[i].epoch + 1 < EPOCHS
    case FailItem(i) => i in s.items ==> !LiveRun(s, s.items[i].run)
    case CommitTurn(i, fence, r, n, outcome, _) =>
      && i in s.items && s.items[i].run == r && s.items[i].node == n && r in s.runs
      && (outcome.Done? ==> fence > 0 && WasCompletable(s, i))
    case SettleHeld(i, fence) => HeldUnder(s, i, fence) ==> SeenWithheld(s, i)
    case WithdrawItem(i, _) => i in s.items ==> !LiveRun(s, s.items[i].run)
    case ReleaseItem(i, fence) => MayRelease(s, i, fence)
    case RaiseRequest(i, request, _) =>
      && i in s.items
      && exists tenant: Rule, k, m | 0 <= k <= m <= |LogOf(s, s.items[i].run)| ::
           Fired(s, i, tenant, k, m, Held(Some(request)), Deadline(request.expiresAt, request.escalateAt))
    case RecordDecision(r, ruling, decision, principal, _) =>
      exists k | 0 <= k <= |LogOf(s, r)| :: Reviewed(cfg, LogOf(s, r)[..k], ruling, decision, principal)
    case RecordExpiry(r, n, answered, sweptAt, _) =>
      exists k | 0 <= k <= |LogOf(s, r)| ::
        var status := ApprovalFold(LogOf(s, r)[..k], n);
        status.Pending? && status.sequence == answered && status.request.Expired(sweptAt)
    case FinishExecution(_, status, _) => status.IsTerminal()
    case FailRejectedNode(r, n, _) =>
      exists k | 0 <= k <= |LogOf(s, r)| :: ProgressOf(LogOf(s, r)[..k], n).rejected
    case SkipNode(r, n, _) =>
      exists k | 0 <= k <= |LogOf(s, r)| ::
        var p := ProgressOf(LogOf(s, r)[..k], n); !p.completed && !p.scheduled && !p.failed
    case EnqueueItem(i, r, _, _, _) => i !in s.items && r in s.runs
    case _ => true
  }

  // ---------------------------------------------------------------------------
  // Executions
  // ---------------------------------------------------------------------------

  predicate ValidTrace(cfg: Config, s: Store, acts: seq<Action>)
    decreases |acts|
  {
    |acts| == 0 || (Legal(cfg, s, acts[0]) && ValidTrace(cfg, Apply(s, acts[0]), acts[1..]))
  }

  function After(s: Store, acts: seq<Action>): Store
    decreases |acts|
  {
    if |acts| == 0 then s else After(Apply(s, acts[0]), acts[1..])
  }

  predicate WholeWrites(acts: seq<Action>) {
    forall a | a in acts :: !SplitWrite(a)
  }

  lemma {:induction false} TraceConcat(cfg: Config, s: Store, p: seq<Action>, q: seq<Action>)
    ensures After(s, p + q) == After(After(s, p), q)
    ensures ValidTrace(cfg, s, p) && ValidTrace(cfg, After(s, p), q) ==> ValidTrace(cfg, s, p + q)
    decreases |p|
  {
    if |p| == 0 {
      assert p + q == q;
    } else {
      assert (p + q)[0] == p[0] && (p + q)[1..] == p[1..] + q;
      TraceConcat(cfg, Apply(s, p[0]), p[1..], q);
    }
  }

  lemma SingleStep(cfg: Config, s: Store, a: Action)
    ensures After(s, [a]) == Apply(s, a)
    ensures ValidTrace(cfg, s, [a]) <==> Legal(cfg, s, a)
  {
    assert [a][1..] == [];
    assert After(Apply(s, a), []) == Apply(s, a) && ValidTrace(cfg, Apply(s, a), []);
  }

  /** An execution up to any moment is one, and so is what follows from there. */
  lemma {:induction false} TraceSplit(cfg: Config, s: Store, acts: seq<Action>, k: nat)
    requires ValidTrace(cfg, s, acts) && k <= |acts|
    ensures ValidTrace(cfg, s, acts[..k]) && ValidTrace(cfg, After(s, acts[..k]), acts[k..])
    ensures After(s, acts) == After(After(s, acts[..k]), acts[k..])
    decreases |acts|
  {
    if k == 0 {
      assert acts[..0] == [] && acts[0..] == acts;
    } else {
      TraceSplit(cfg, Apply(s, acts[0]), acts[1..], k - 1);
      assert acts[..k][0] == acts[0] && acts[..k][1..] == acts[1..][..k - 1] && acts[k..] == acts[1..][k - 1..];
    }
  }
}
