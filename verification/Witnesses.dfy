/**
 Where a promise is false of the code: executions from the empty store, write by write, that break it. Each is a
 valid execution, and each shows the last state in which the broken promise can be read off.
 */
module Witnesses {
  import opened Wrappers
  import opened Workflow
  import opened EventLog
  import opened Fences
  import opened Approvals
  import opened Guard
  import opened RunStore
  import opened StoreHistory
  import opened LogEffects
  import opened RunSafety
  import opened Stranding
  import opened HalfWrites

  /** Who and what the executions below are about; run, node and first item are the same in all of them. */
  datatype Cast = Cast(key: WorkflowKey, ir: Ir, initiator: Principal, approver: Principal, worker: WorkerId,
                       payload: Payload, attempts: nat)
  {
    /** The start node needs an approval when the tenant says so, and the approver is not the initiator. */
    predicate Gated() {
      && ir.start in ir.nodes && (ir.nodes[ir.start].rule.None? || ir.nodes[ir.start].rule == Some(Gate))
      && initiator != approver
    }

    function Def(): NodeDef
      requires Gated()
    {
      ir.nodes[ir.start]
    }
  }

  /** The store of one running workflow. */
  function Scene(c: Cast, log: Log, items: map<ItemId, Item>, granted: set<(ItemId, int)>,
                 dispatching: set<(RunId, NodeId)>): Store
  {
    Store(map[c.key := c.ir], map[1 := Run(c.key, Running, log)], items, 0, granted, dispatching)
  }

  predicate Reaches(cfg: Config, acts: seq<Action>, s: Store) {
    ValidTrace(cfg, EmptyStore, acts) && After(EmptyStore, acts) == s
  }

  /** One write more. */
  lemma Next(cfg: Config, acts: seq<Action>, s: Store, a: Action)
    requires Reaches(cfg, acts, s) && Legal(cfg, s, a)
    ensures Reaches(cfg, acts + [a], Apply(s, a))
  {
    SingleStep(cfg, s, a);
    TraceConcat(cfg, EmptyStore, acts, [a]);
  }

  // ---------------------------------------------------------------------------
  // Single writes on a scene
  // ---------------------------------------------------------------------------

  lemma Begins(cfg: Config, c: Cast)
    ensures Reaches(cfg, Opening(c), Opened(c))
  {
    var a0, a1 := StoreWorkflow(c.key, c.ir), StartExecution(1, c.key, Some(c.initiator), 1, c.payload, c.attempts, 0);
    var s1 := Apply(EmptyStore, a0);
    assert Reaches(cfg, [], EmptyStore);
    Next(cfg, [], EmptyStore, a0);
    Next(cfg, [] + [a0], s1, a1);
    assert [] + [a0] + [a1] == Opening(c);
    assert Apply(s1, a1) == Opened(c);
  }

  function Opening(c: Cast): seq<Action> {
    [StoreWorkflow(c.key, c.ir), StartExecution(1, c.key, Some(c.initiator), 1, c.payload, c.attempts, 0)]
  }

  function Opened(c: Cast): Store {
    Scene(c, FirstLog(c), map[1 := FirstItem(c)], {}, {})
  }

  function FirstLog(c: Cast): Log {
    [Event(WorkflowStarted(Some(c.initiator)), 0), Event(NodeScheduled(c.ir.start), 0)]
  }

  lemma Appends(c: Cast, log: Log, items: map<ItemId, Item>, granted: set<(ItemId, int)>,
                dispatching: set<(RunId, NodeId)>, kind: EventKind, now: Time)
    ensures Append(Scene(c, log, items, granted, dispatching), 1, kind, now)
         == Scene(c, log + [Event(kind, now)], items, granted, dispatching)
  {
  }

  /** The row of an item after a claim, when the log had `entries` entries. */
  function ClaimedBy(it: Item, worker: WorkerId, entries: nat): Item {
    it.(status := Claimed, worker := Some(worker), epoch := it.epoch + 1, fence := it.epoch + 1,
        claimedAt := entries, heldSince := entries)
  }

  lemma Claims(cfg: Config, c: Cast, log: Log, items: map<ItemId, Item>, granted: set<(ItemId, int)>,
               dispatching: set<(RunId, NodeId)>, i: ItemId)
    requires i in items && items[i].status.Queued? && items[i].epoch < 10 && items[i].run == 1
    ensures var s := Scene(c, log, items, granted, dispatching);
            && Legal(cfg, s, ClaimItem(i, c.worker))
            && Apply(s, ClaimItem(i, c.worker))
               == Scene(c, log, items[i := ClaimedBy(items[i], c.worker, |log|)], granted, dispatching)
  {
  }

  /** The request the guard raises for the start node at its first occurrence. */
  function FirstRequest(c: Cast): Request
    requires c.Gated()
  {
    Request(Some(Bound(c, c.payload)), None, Some(0), Unset, Unset)
  }

  function Bound(c: Cast, payload: Payload): Binding
    requires c.Gated()
  {
    ActionDigest(1, 0, c.ir.start, c.Def().definition, payload)
  }

  /** The decision that answers it, and what it writes. */
  function Approving(c: Cast, answered: nat): Action
    requires c.Gated()
  {
    RecordDecision(1, Ruling(c.ir.start, answered, Some(Bound(c, c.payload))), Approve, Some(c.approver), 2)
  }

  function Approval(c: Cast, answered: nat): EventKind
    requires c.Gated()
  {
    ApprovalReceived(c.ir.start, Approve, Some(c.approver), Some(Bound(c, c.payload)), answered)
  }

  /** Raising the request for item 1, whose node nobody asked about before. */
  lemma Raises(cfg: Config, c: Cast, log: Log, items: map<ItemId, Item>, granted: set<(ItemId, int)>,
               dispatching: set<(RunId, NodeId)>)
    requires c.Gated() && 1 in items && items[1].run == 1 && items[1].node == c.ir.start
    requires items[1].payload == c.payload
    requires NodeApprovalStatus(log, c.ir.start).NotRequested? && Completions(log, c.ir.start) == 0
    ensures var s := Scene(c, log, items, granted, dispatching);
            Legal(cfg, s, RaiseRequest(1, FirstRequest(c), 1))
  {
    var s := Scene(c, log, items, granted, dispatching);
    assert log[..|log|] == log;
    assert Fired(s, 1, Gate, |log|, |log|, Held(Some(FirstRequest(c))), Deadline(Unset, Unset));
  }

  /** Approving that request. */
  lemma Decides(cfg: Config, c: Cast, log: Log, items: map<ItemId, Item>, granted: set<(ItemId, int)>,
                dispatching: set<(RunId, NodeId)>, answered: nat)
    requires c.Gated() && |log| > 0 && log[0].kind == WorkflowStarted(Some(c.initiator))
    requires NodeApprovalStatus(log, c.ir.start) == ApprovalStatus.Pending(answered, FirstRequest(c))
    ensures var s := Scene(c, log, items, granted, dispatching);
            && Legal(cfg, s, Approving(c, answered))
            && Apply(s, Approving(c, answered))
               == Scene(c, log + [Event(Approval(c, answered), 2)], items, granted, dispatching)
  {
    var s := Scene(c, log, items, granted, dispatching);
    assert LogOf(s, 1) == log && log[..|log|] == log;
    assert Reviewed(cfg, LogOf(s, 1)[..|log|], Ruling(c.ir.start, answered, Some(Bound(c, c.payload))), Approve,
                    Some(c.approver));
  }

  /** Settling a lease of item 1 whose node is withheld by now. */
  lemma Settles(cfg: Config, c: Cast, log: Log, items: map<ItemId, Item>, granted: set<(ItemId, int)>,
                dispatching: set<(RunId, NodeId)>)
    requires 1 in items && items[1].run == 1 && items[1].status.Claimed? && items[1].claimedAt <= |log|
    requires ApprovalFold(log, items[1].node).Withholds()
    ensures var s := Scene(c, log, items, granted, dispatching);
            && Legal(cfg, s, SettleHeld(1, items[1].fence))
            && Apply(s, SettleHeld(1, items[1].fence))
               == Scene(c, log, items[1 := items[1].(status := ItemStatus.Completed)], granted, dispatching)
  {
    var s := Scene(c, log, items, granted, dispatching);
    assert LogOf(s, 1) == log && log[..|log|] == log;
    assert ApprovalFold(LogOf(s, 1)[..|log|], items[1].node).Withholds();
  }

  /** The scheduler dispatches node `n`, as item `i`. */
  lemma Dispatches(cfg: Config, c: Cast, acts: seq<Action>, log: Log, items: map<ItemId, Item>,
                   granted: set<(ItemId, int)>, i: ItemId, n: NodeId, payload: Payload)
    requires Reaches(cfg, acts, Scene(c, log, items, granted, {})) && i !in items
    ensures Reaches(cfg, acts + [ScheduleNode(1, n, 3)] + [EnqueueItem(i, 1, n, payload, 3)],
                    Scene(c, log + [Event(NodeScheduled(n), 3)], items[i := NewItem(1, n, payload, 3)], granted, {}))
  {
    var s := Scene(c, log, items, granted, {});
    var t := Scene(c, log + [Event(NodeScheduled(n), 3)], items, granted, {(1, n)});
    Next(cfg, acts, s, ScheduleNode(1, n, 3));
    DispatchSchedules(c, log, items, granted, n);
    Next(cfg, acts + [ScheduleNode(1, n, 3)], t, EnqueueItem(i, 1, n, payload, 3));
    DispatchEnqueues(c, log + [Event(NodeScheduled(n), 3)], items, granted, i, n, payload);
  }

  lemma DispatchSchedules(c: Cast, log: Log, items: map<ItemId, Item>, granted: set<(ItemId, int)>, n: NodeId)
    ensures Apply(Scene(c, log, items, granted, {}), ScheduleNode(1, n, 3))
         == Scene(c, log + [Event(NodeScheduled(n), 3)], items, granted, {(1, n)})
  {
  }

  lemma DispatchEnqueues(c: Cast, log: Log, items: map<ItemId, Item>, granted: set<(ItemId, int)>, i: ItemId,
                         n: NodeId, payload: Payload)
    requires i !in items
    ensures Apply(Scene(c, log, items, granted, {(1, n)}), EnqueueItem(i, 1, n, payload, 3))
         == Scene(c, log, items[i := NewItem(1, n, payload, 3)], granted, {})
  {
  }

  /** Recording a result of the start node for item `i`, on a completion gate that passed when the log was its
      first `k` entries. */
  lemma Records(cfg: Config, c: Cast, log: Log, items: map<ItemId, Item>, granted: set<(ItemId, int)>,
                i: ItemId, k: nat, output: Output)
    requires c.Gated() && i in items && items[i].run == 1 && items[i].node == c.ir.start
    requires items[i].status.Claimed? && items[i].fence > 0
    requires k <= |log|
    requires NodeApprovalStatus(log[..k], c.ir.start).Approved? && Completions(log[..k], c.ir.start) == 0
    requires AnsweredRequest(log[..k], c.ir.start).Some?
    requires AnsweredRequest(log[..k], c.ir.start).value.1 == FirstRequest(c)
    ensures var s := Scene(c, log, items, granted, {});
            var a := CommitTurn(i, items[i].fence, 1, c.ir.start, Done(output), 4);
            && Legal(cfg, s, a) && RunStore.Commits(s, a)
            && Apply(s, a) == Scene(c, log + [Event(NodeCompleted(c.ir.start, output), 4)],
                                    items[i := items[i].(status := ItemStatus.Completed)], granted, {})
  {
    var s := Scene(c, log, items, granted, {});
    assert LogOf(s, 1) == log;
    assert Completable(s, i, Gate, k, k);
  }

  // ---------------------------------------------------------------------------
  // Logs
  // ---------------------------------------------------------------------------

  /** What the folds make of a log, for one node. */
  predicate Reads(log: Log, n: NodeId, status: ApprovalStatus, completions: nat, p: Progress) {
    && NodeApprovalStatus(log, n) == status && ApprovalFold(log, n) == status
    && Completions(log, n) == completions && ProgressOf(log, n) == p
    && !HasUnreadable(log)
  }

  lemma ReadsNext(log: Log, n: NodeId, status: ApprovalStatus, completions: nat, p: Progress, e: Event)
    requires Reads(log, n, status, completions, p) && !e.kind.Unknown?
    ensures Reads(log + [e], n, ApprovalStep(status, e.kind, |log| + 1, n),
                  completions + (if e.kind.NodeCompleted? && e.kind.node == n then 1 else 0),
                  ProgressStep(p, e.kind, |log| + 1, n))
  {
    ApprovalFoldAppend(log, e, n);
    ProgressAppend(log, e, n);
    assert (log + [e])[..|log|] == log;
    assert forall i | 0 <= i < |log| :: (log + [e])[i] == log[i];
  }

  const Idle := NoProgress.(scheduled := true)

  lemma EmptyLogReads(n: NodeId)
    ensures Reads([], n, NotRequested, 0, NoProgress)
  {
  }

  lemma FirstEventReads(c: Cast, n: NodeId)
    ensures Reads([Event(WorkflowStarted(Some(c.initiator)), 0)], n, NotRequested, 0, NoProgress)
  {
    var e := Event(WorkflowStarted(Some(c.initiator)), 0);
    EmptyLogReads(n);
    ReadsNext([], n, NotRequested, 0, NoProgress, e);
    assert [] + [e] == [e];
  }

  lemma FirstLogReads(c: Cast, n: NodeId)
    ensures Reads(FirstLog(c), n, NotRequested, 0, if n == c.ir.start then Idle else NoProgress)
  {
    var e0, e1 := Event(WorkflowStarted(Some(c.initiator)), 0), Event(NodeScheduled(c.ir.start), 0);
    FirstEventReads(c, n);
    ReadsNext([e0], n, NotRequested, 0, NoProgress, e1);
    assert [e0] + [e1] == FirstLog(c);
  }

  lemma LatestNext(log: Log, n: NodeId, e: Event)
    ensures LatestRequest(log + [e], n) ==
            if e.kind.ToolApprovalRequired? && e.kind.node == n then Some((|log| + 1, e.kind.request))
            else LatestRequest(log, n)
  {
    assert (log + [e])[..|log|] == log;
  }

  // ---------------------------------------------------------------------------
  // Stranded nodes
  // ---------------------------------------------------------------------------

  /** A crash in a dispatch: the scheduler writes `NodeScheduled` for a second root node of a fresh run and stops
      before it enqueues the item. */
  lemma CrashInDispatchStrands(cfg: Config, c: Cast, second: NodeId)
    requires second != c.ir.start
    ensures var acts := Opening(c) + [ScheduleNode(1, second, 1)];
            Reaches(cfg, acts, After(EmptyStore, acts)) && WholeWrites(acts) && Stranded(After(EmptyStore, acts), 1, second)
  {
    Begins(cfg, c);
    Next(cfg, Opening(c), Opened(c), ScheduleNode(1, second, 1));
    CutDispatchIsStranded(c, second);
  }

  lemma CutDispatchIsStranded(c: Cast, second: NodeId)
    requires second != c.ir.start
    ensures Stranded(Apply(Opened(c), ScheduleNode(1, second, 1)), 1, second)
  {
    FirstLogReads(c, second);
    ReadsNext(FirstLog(c), second, NotRequested, 0, NoProgress, Event(NodeScheduled(second), 1));
  }

  /** The only item is settled and the start node still counts as scheduled. */
  lemma SettledSceneIsStranded(c: Cast, log: Log, items: map<ItemId, Item>, status: ApprovalStatus, p: Progress)
    requires items.Keys == {1} && items[1].status.Settled() && Reads(log, c.ir.start, status, 0, p)
    requires !status.Withholds() && p.scheduled && !p.completed
    ensures Stranded(Scene(c, log, items, {}, {}), 1, c.ir.start)
  {
  }

  /** A fenced completion that cannot read its item: claimed, settled, and nothing recorded. */
  lemma BlindSettleStrands(cfg: Config, c: Cast)
    ensures var acts := Opening(c) + [ClaimItem(1, c.worker)] + [SettleBlind(1, Mint(0, 1))];
            Reaches(cfg, acts, After(EmptyStore, acts)) && Stranded(After(EmptyStore, acts), 1, c.ir.start)
  {
    var it := FirstItem(c);
    var leased := map[1 := it][1 := ClaimedBy(it, c.worker, 2)];
    Begins(cfg, c);
    Claims(cfg, c, FirstLog(c), map[1 := it], {}, {}, 1);
    Next(cfg, Opening(c), Opened(c), ClaimItem(1, c.worker));
    Next(cfg, Opening(c) + [ClaimItem(1, c.worker)], Scene(c, FirstLog(c), leased, {}, {}), SettleBlind(1, Mint(0, 1)));
    FirstLogReads(c, c.ir.start);
    SettledSceneIsStranded(c, FirstLog(c), leased[1 := leased[1].(status := ItemStatus.Completed)], NotRequested, Idle);
  }

  /** The sweep of a lapsed lease that was the item's last attempt, stopped before it records the failure:
      the item is with the dead letters, and the log still has the node scheduled. */
  lemma DeadLetterStrands(cfg: Config, c: Cast)
    requires c.attempts <= 1
    ensures var acts := Opening(c) + [ClaimItem(1, c.worker)] + [SweepDeadLetter(1, 0)];
            Reaches(cfg, acts, After(EmptyStore, acts)) && Stranded(After(EmptyStore, acts), 1, c.ir.start)
  {
    var it := FirstItem(c);
    var leased := map[1 := it][1 := ClaimedBy(it, c.worker, 2)];
    Begins(cfg, c);
    Claims(cfg, c, FirstLog(c), map[1 := it], {}, {}, 1);
    Next(cfg, Opening(c), Opened(c), ClaimItem(1, c.worker));
    Next(cfg, Opening(c) + [ClaimItem(1, c.worker)], Scene(c, FirstLog(c), leased, {}, {}), SweepDeadLetter(1, 0));
    FirstLogReads(c, c.ir.start);
    SettledSceneIsStranded(c, FirstLog(c), leased[1 := leased[1].(status := DeadLettered, worker := None, attempt := 1)],
                           NotRequested, Idle);
  }

  /** Opening, a claim and a request: item 1 is leased and its node waits for a decision. */
  function Asking(c: Cast): seq<Action>
    requires c.Gated()
  {
    Opening(c) + [ClaimItem(1, c.worker)] + [RaiseRequest(1, FirstRequest(c), 1)]
  }

  function FirstItem(c: Cast): Item {
    NewItem(1, c.ir.start, c.payload, c.attempts)
  }

  function RequestEvent(c: Cast): Event
    requires c.Gated()
  {
    Event(ToolApprovalRequired(c.ir.start, FirstRequest(c)), 1)
  }

  function AskedLog(c: Cast): Log
    requires c.Gated()
  {
    FirstLog(c) + [RequestEvent(c)]
  }

  lemma Asks(cfg: Config, c: Cast)
    requires c.Gated()
    ensures Reaches(cfg, Asking(c), Scene(c, AskedLog(c), map[1 := ClaimedBy(FirstItem(c), c.worker, 2)], {}, {}))
    ensures Reads(AskedLog(c), c.ir.start, ApprovalStatus.Pending(3, FirstRequest(c)), 0,
                  Idle.(held := true, heldRequest := Some(3)))
    ensures LatestRequest(AskedLog(c), c.ir.start) == Some((3, FirstRequest(c)))
  {
    LatestNext(FirstLog(c), c.ir.start, RequestEvent(c));
    var it, log := FirstItem(c), FirstLog(c);
    var items := map[1 := ClaimedBy(it, c.worker, 2)];
    Begins(cfg, c);
    Claims(cfg, c, log, map[1 := it], {}, {}, 1);
    Next(cfg, Opening(c), Opened(c), ClaimItem(1, c.worker));
    assert map[1 := it][1 := ClaimedBy(it, c.worker, 2)] == items;
    FirstLogReads(c, c.ir.start);
    Raises(cfg, c, log, items, {}, {});
    Next(cfg, Opening(c) + [ClaimItem(1, c.worker)], Scene(c, log, items, {}, {}), RaiseRequest(1, FirstRequest(c), 1));
    Appends(c, log, items, {}, {}, RequestEvent(c).kind, 1);
    ReadsNext(log, c.ir.start, NotRequested, 0, Idle, RequestEvent(c));
  }

  // ---------------------------------------------------------------------------
  // A result whose payload nobody approved
  // ---------------------------------------------------------------------------

  /** Another root node of the workflow, which needs no approval, what it is given and what it answers. */
  datatype Side = Side(node: NodeId, payload: Payload, output: Output)

  predicate Runs(c: Cast, x: Side) {
    && x.node != c.ir.start && x.node in c.ir.nodes
    && (c.ir.nodes[x.node].rule.None? || c.ir.nodes[x.node].rule == Some(Permit))
  }

  /** Item 1 is held for approval and settled. While its request waits, the scheduler dispatches the other node
      as item 2, which is claimed, released and completed: the run's state moved on. */
  function Meanwhile(c: Cast, x: Side): seq<Action>
    requires c.Gated()
  {
    Asking(c) + [SettleHeld(1, 1)] + [ScheduleNode(1, x.node, 3)] + [EnqueueItem(2, 1, x.node, x.payload, 3)]
    + [ClaimItem(2, c.worker)] + [ReleaseItem(2, 1)] + [CommitTurn(2, 1, 1, x.node, Done(x.output), 4)]
  }

  /** Then the request is approved, and the scheduler dispatches its node again, with the payload it now builds,
      as item 3, which a worker claims. */
  function Swap(c: Cast, x: Side, other: Payload): seq<Action>
    requires c.Gated()
  {
    Meanwhile(c, x) + [Approving(c, 3)] + [ScheduleNode(1, c.ir.start, 3)] + [EnqueueItem(3, 1, c.ir.start, other, 3)]
    + [ClaimItem(3, c.worker)]
  }

  function SideLog(c: Cast, x: Side): Log
    requires c.Gated()
  {
    AskedLog(c) + [Event(NodeScheduled(x.node), 3)]
  }

  function MovedLog(c: Cast, x: Side): Log
    requires c.Gated()
  {
    SideLog(c, x) + [Event(NodeCompleted(x.node, x.output), 4)]
  }

  function ApprovedLog(c: Cast, x: Side): Log
    requires c.Gated()
  {
    MovedLog(c, x) + [Event(Approval(c, 3), 2)] + [Event(NodeScheduled(c.ir.start), 3)]
  }

  function FirstDone(c: Cast): Item {
    ClaimedBy(FirstItem(c), c.worker, 2).(status := ItemStatus.Completed)
  }

  function SideLeased(c: Cast, x: Side): Item {
    ClaimedBy(NewItem(1, x.node, x.payload, 3), c.worker, 4)
  }

  function MovedItems(c: Cast, x: Side): map<ItemId, Item> {
    map[1 := FirstDone(c), 2 := SideLeased(c, x).(status := ItemStatus.Completed)]
  }

  function SwapItems(c: Cast, x: Side, other: Payload): map<ItemId, Item> {
    MovedItems(c, x)[3 := ClaimedBy(NewItem(1, c.ir.start, other, 3), c.worker, 7)]
  }

  lemma ApprovedLogReads(c: Cast, x: Side)
    requires c.Gated() && x.node != c.ir.start
    requires Reads(AskedLog(c), c.ir.start, ApprovalStatus.Pending(3, FirstRequest(c)), 0,
                   Idle.(held := true, heldRequest := Some(3)))
    requires LatestRequest(AskedLog(c), c.ir.start) == Some((3, FirstRequest(c)))
    ensures NodeApprovalStatus(MovedLog(c, x), c.ir.start) == ApprovalStatus.Pending(3, FirstRequest(c))
    ensures NodeApprovalStatus(ApprovedLog(c, x), c.ir.start).Approved? && Completions(ApprovedLog(c, x), c.ir.start) == 0
    ensures AnsweredRequest(ApprovedLog(c, x), c.ir.start) == Some((3, FirstRequest(c)))
  {
    var n := c.ir.start;
    var e1, e2, e3, e4 := Event(NodeScheduled(x.node), 3), Event(NodeCompleted(x.node, x.output), 4),
                          Event(Approval(c, 3), 2), Event(NodeScheduled(n), 3);
    var asked, pending := Idle.(held := true, heldRequest := Some(3)), ApprovalStatus.Pending(3, FirstRequest(c));
    ReadsNext(AskedLog(c), n, pending, 0, asked, e1);
    ReadsNext(SideLog(c, x), n, pending, 0, asked, e2);
    ReadsNext(MovedLog(c, x), n, pending, 0, asked, e3);
    ReadsNext(MovedLog(c, x) + [e3], n, Approved(6, Some(Bound(c, c.payload))), 0, NoProgress.(heldRequest := Some(3)), e4);
    LatestNext(AskedLog(c), n, e1);
    LatestNext(SideLog(c, x), n, e2);
    LatestNext(MovedLog(c, x), n, e3);
    LatestNext(MovedLog(c, x) + [e3], n, e4);
  }

  lemma SideIsLeased(cfg: Config, c: Cast, x: Side)
    requires c.Gated()
    ensures Reaches(cfg, Meanwhile(c, x)[..|Meanwhile(c, x)| - 2],
                    Scene(c, SideLog(c, x), map[1 := FirstDone(c), 2 := SideLeased(c, x)], {}, {}))
  {
    var log, one := AskedLog(c), ClaimedBy(FirstItem(c), c.worker, 2);
    var items := map[1 := FirstDone(c)][2 := NewItem(1, x.node, x.payload, 3)];
    var acts := Meanwhile(c, x);
    var k := |acts|;
    Asks(cfg, c);
    Settles(cfg, c, log, map[1 := one], {}, {});
    Next(cfg, Asking(c), Scene(c, log, map[1 := one], {}, {}), SettleHeld(1, 1));
    assert map[1 := one][1 := FirstDone(c)] == map[1 := FirstDone(c)];
    Dispatches(cfg, c, Asking(c) + [SettleHeld(1, 1)], log, map[1 := FirstDone(c)], {}, 2, x.node, x.payload);
    assert acts[..k - 3] == Asking(c) + [SettleHeld(1, 1)] + [ScheduleNode(1, x.node, 3)]
                            + [EnqueueItem(2, 1, x.node, x.payload, 3)];
    Claims(cfg, c, SideLog(c, x), items, {}, {}, 2);
    Next(cfg, acts[..k - 3], Scene(c, SideLog(c, x), items, {}, {}), ClaimItem(2, c.worker));
    assert items[2 := SideLeased(c, x)] == map[1 := FirstDone(c), 2 := SideLeased(c, x)];
    assert acts[..k - 2] == acts[..k - 3] + [ClaimItem(2, c.worker)];
  }

  /** The other node's policy permits it, so both gates pass on any read. */
  lemma SideIsPermitted(cfg: Config, c: Cast, x: Side, granted: set<(ItemId, int)>)
    requires c.Gated() && Runs(c, x)
    ensures var s := Scene(c, SideLog(c, x), map[1 := FirstDone(c), 2 := SideLeased(c, x)], granted, {});
            && Legal(cfg, s, ReleaseItem(2, 1)) && Legal(cfg, s, CommitTurn(2, 1, 1, x.node, Done(x.output), 4))
  {
    var s := Scene(c, SideLog(c, x), map[1 := FirstDone(c), 2 := SideLeased(c, x)], granted, {});
    assert |SideLog(c, x)| == 4;
    assert Fired(s, 2, Permit, 4, 4, Allow, NoDeadline);
    assert Completable(s, 2, Permit, 4, 4);
  }

  lemma MeanwhileIsReached(cfg: Config, c: Cast, x: Side)
    requires c.Gated() && Runs(c, x)
    ensures Reaches(cfg, Meanwhile(c, x), Scene(c, MovedLog(c, x), MovedItems(c, x), {(2, 1)}, {}))
  {
    var items, acts := map[1 := FirstDone(c), 2 := SideLeased(c, x)], Meanwhile(c, x);
    var k := |acts|;
    SideIsLeased(cfg, c, x);
    SideIsPermitted(cfg, c, x, {});
    SideIsPermitted(cfg, c, x, {(2, 1)});
    Next(cfg, acts[..k - 2], Scene(c, SideLog(c, x), items, {}, {}), ReleaseItem(2, 1));
    assert {} + {(2, 1)} == {(2, 1)};
    Next(cfg, acts[..k - 2] + [ReleaseItem(2, 1)], Scene(c, SideLog(c, x), items, {(2, 1)}, {}),
         CommitTurn(2, 1, 1, x.node, Done(x.output), 4));
    SideCommits(c, x);
    assert acts == acts[..k - 2] + [ReleaseItem(2, 1)] + [CommitTurn(2, 1, 1, x.node, Done(x.output), 4)];
  }

  lemma SideCommits(c: Cast, x: Side)
    requires c.Gated()
    ensures Apply(Scene(c, SideLog(c, x), map[1 := FirstDone(c), 2 := SideLeased(c, x)], {(2, 1)}, {}),
                  CommitTurn(2, 1, 1, x.node, Done(x.output), 4))
         == Scene(c, MovedLog(c, x), MovedItems(c, x), {(2, 1)}, {})
  {
    assert map[1 := FirstDone(c), 2 := SideLeased(c, x)][2 := SideLeased(c, x).(status := ItemStatus.Completed)]
        == MovedItems(c, x);
  }

  lemma SwapIsReached(cfg: Config, c: Cast, x: Side, other: Payload)
    requires c.Gated() && Runs(c, x)
    ensures Reaches(cfg, Swap(c, x, other), Scene(c, ApprovedLog(c, x), SwapItems(c, x, other), {(2, 1)}, {}))
    ensures NodeApprovalStatus(ApprovedLog(c, x), c.ir.start).Approved? && Completions(ApprovedLog(c, x), c.ir.start) == 0
    ensures AnsweredRequest(ApprovedLog(c, x), c.ir.start) == Some((3, FirstRequest(c)))
  {
    var acts, log, items := Meanwhile(c, x), MovedLog(c, x), MovedItems(c, x);
    Asks(cfg, c);
    ApprovedLogReads(c, x);
    MeanwhileIsReached(cfg, c, x);
    Decides(cfg, c, log, items, {(2, 1)}, {}, 3);
    Next(cfg, acts, Scene(c, log, items, {(2, 1)}, {}), Approving(c, 3));
    Dispatches(cfg, c, acts + [Approving(c, 3)], log + [Event(Approval(c, 3), 2)], items, {(2, 1)}, 3, c.ir.start, other);
    SwapClaims(cfg, c, x, other);
  }

  lemma SwapClaims(cfg: Config, c: Cast, x: Side, other: Payload)
    requires c.Gated()
    requires var acts := Swap(c, x, other);
             Reaches(cfg, acts[..|acts| - 1], Scene(c, ApprovedLog(c, x),
                     MovedItems(c, x)[3 := NewItem(1, c.ir.start, other, 3)], {(2, 1)}, {}))
    ensures Reaches(cfg, Swap(c, x, other), Scene(c, ApprovedLog(c, x), SwapItems(c, x, other), {(2, 1)}, {}))
  {
    var items, acts := MovedItems(c, x)[3 := NewItem(1, c.ir.start, other, 3)], Swap(c, x, other);
    Claims(cfg, c, ApprovedLog(c, x), items, {(2, 1)}, {}, 3);
    Next(cfg, acts[..|acts| - 1], Scene(c, ApprovedLog(c, x), items, {(2, 1)}, {}), ClaimItem(3, c.worker));
    assert items[3 := ClaimedBy(NewItem(1, c.ir.start, other, 3), c.worker, 7)] == SwapItems(c, x, other);
    assert acts[..|acts| - 1] + [ClaimItem(3, c.worker)] == acts;
  }

  /** Every approval in the log binds the first item's payload. */
  predicate ApprovesOnlyTheFirst(c: Cast, log: Log)
    requires c.Gated()
  {
    forall j | 0 <= j < |log| && log[j].kind.ApprovalReceived? ::
      log[j].kind.approvedDigest == Some(Bound(c, c.payload))
  }

  lemma ApprovalsOfTheLog(c: Cast, x: Side, e: Event)
    requires c.Gated() && !e.kind.ApprovalReceived?
    ensures ApprovesOnlyTheFirst(c, ApprovedLog(c, x) + [e])
  {
  }

  /** Before the claim gate answers for item 3, its result arrives under the fence the claim minted, which
      anybody can compute. The completion gate asks for the occurrence only, so the result is recorded: a
      gated node, completed by an item whose payload no approval in the log binds. */
  lemma UnapprovedPayloadIsRecorded(cfg: Config, c: Cast, x: Side, other: Payload, output: Output)
    requires c.Gated() && Runs(c, x) && other != c.payload
    ensures var acts := Swap(c, x, other);
            var s := After(EmptyStore, acts);
            var a := CommitTurn(3, Mint(0, 1), 1, c.ir.start, Done(output), 4);
            && Reaches(cfg, acts, s) && Legal(cfg, s, a) && RunStore.Commits(s, a)
            && 3 in s.items && s.items[3].payload == other && (3, Mint(0, 1)) !in s.granted
            && LogOf(Apply(s, a), 1) == LogOf(s, 1) + [Event(NodeCompleted(c.ir.start, output), 4)]
            && ApprovesOnlyTheFirst(c, LogOf(Apply(s, a), 1)) && Bound(c, c.payload).payload != other
            && (c.Def().rule == Some(Gate) ==> RunSafety.Gated(Apply(s, a), 1, c.ir.start))
  {
    SwapIsReached(cfg, c, x, other);
    SwapCommits(cfg, c, x, other, output);
  }

  lemma SwapCommits(cfg: Config, c: Cast, x: Side, other: Payload, output: Output)
    requires c.Gated()
    requires NodeApprovalStatus(ApprovedLog(c, x), c.ir.start).Approved? && Completions(ApprovedLog(c, x), c.ir.start) == 0
    requires AnsweredRequest(ApprovedLog(c, x), c.ir.start) == Some((3, FirstRequest(c)))
    ensures var s := Scene(c, ApprovedLog(c, x), SwapItems(c, x, other), {(2, 1)}, {});
            var a := CommitTurn(3, Mint(0, 1), 1, c.ir.start, Done(output), 4);
            && Legal(cfg, s, a) && RunStore.Commits(s, a)
            && LogOf(Apply(s, a), 1) == ApprovedLog(c, x) + [Event(NodeCompleted(c.ir.start, output), 4)]
            && ApprovesOnlyTheFirst(c, LogOf(Apply(s, a), 1))
  {
    var log := ApprovedLog(c, x);
    assert log[..|log|] == log;
    Records(cfg, c, log, SwapItems(c, x, other), {(2, 1)}, 3, |log|, output);
    ApprovalsOfTheLog(c, x, Event(NodeCompleted(c.ir.start, output), 4));
  }

  // ---------------------------------------------------------------------------
  // A retry recorded late
  // ---------------------------------------------------------------------------

  /** The sweep re-queues a lapsed lease and records the failure. Before it records the retry, the item is
      claimed again, held for approval and settled, and the request is approved. */
  function LateRetry(c: Cast): seq<Action>
    requires c.Gated()
  {
    Opening(c) + [ClaimItem(1, c.worker)] + [SweepRequeue(1, 0)] + [SweepRecordFailure(1, c.ir.start, true, 0)]
    + [ClaimItem(1, c.worker)] + [RaiseRequest(1, FirstRequest(c), 1)] + [SettleHeld(1, 3)] + [Approving(c, 4)]
  }

  function FailedLog(c: Cast): Log {
    FirstLog(c) + [Event(NodeFailed(c.ir.start, true), 0)]
  }

  function SecondLease(c: Cast): Item {
    ClaimedBy(Requeued(ClaimedBy(FirstItem(c), c.worker, 2)), c.worker, 3)
  }

  lemma SweepRequeues(cfg: Config, c: Cast)
    requires c.attempts > 1
    ensures Reaches(cfg, Opening(c) + [ClaimItem(1, c.worker)] + [SweepRequeue(1, 0)]
                         + [SweepRecordFailure(1, c.ir.start, true, 0)] + [ClaimItem(1, c.worker)],
                    Scene(c, FailedLog(c), map[1 := SecondLease(c)], {}, {}))
  {
    var it, log := FirstItem(c), FirstLog(c);
    var one := ClaimedBy(it, c.worker, 2);
    var back := Requeued(one);
    var acts := Opening(c) + [ClaimItem(1, c.worker)];
    Begins(cfg, c);
    Claims(cfg, c, log, map[1 := it], {}, {}, 1);
    Next(cfg, Opening(c), Opened(c), ClaimItem(1, c.worker));
    assert map[1 := it][1 := one] == map[1 := one];
    Next(cfg, acts, Scene(c, log, map[1 := one], {}, {}), SweepRequeue(1, 0));
    assert Apply(Scene(c, log, map[1 := one], {}, {}), SweepRequeue(1, 0)) == Scene(c, log, map[1 := back], {}, {}) by {
      assert map[1 := one][1 := back] == map[1 := back];
    }
    ReclaimsAfterFailure(cfg, c, acts + [SweepRequeue(1, 0)], back);
  }

  lemma ReclaimsAfterFailure(cfg: Config, c: Cast, acts: seq<Action>, back: Item)
    requires back == Requeued(ClaimedBy(FirstItem(c), c.worker, 2))
    requires Reaches(cfg, acts, Scene(c, FirstLog(c), map[1 := back], {}, {}))
    ensures Reaches(cfg, acts + [SweepRecordFailure(1, c.ir.start, true, 0)] + [ClaimItem(1, c.worker)],
                    Scene(c, FailedLog(c), map[1 := SecondLease(c)], {}, {}))
  {
    var fail := SweepRecordFailure(1, c.ir.start, true, 0);
    Next(cfg, acts, Scene(c, FirstLog(c), map[1 := back], {}, {}), fail);
    Appends(c, FirstLog(c), map[1 := back], {}, {}, NodeFailed(c.ir.start, true), 0);
    Claims(cfg, c, FailedLog(c), map[1 := back], {}, {}, 1);
    Next(cfg, acts + [fail], Scene(c, FailedLog(c), map[1 := back], {}, {}), ClaimItem(1, c.worker));
    assert map[1 := back][1 := SecondLease(c)] == map[1 := SecondLease(c)];
  }

  function LateLog(c: Cast): Log
    requires c.Gated()
  {
    FailedLog(c) + [RequestEvent(c)] + [Event(Approval(c, 4), 2)]
  }

  lemma LateLogReads(c: Cast)
    requires c.Gated()
    ensures Reads(FailedLog(c), c.ir.start, NotRequested, 0, NoProgress)
    ensures Reads(FailedLog(c) + [RequestEvent(c)], c.ir.start, ApprovalStatus.Pending(4, FirstRequest(c)), 0,
                  NoProgress.(held := true, heldRequest := Some(4)))
    ensures Reads(LateLog(c), c.ir.start, Approved(5, Some(Bound(c, c.payload))), 0,
                  NoProgress.(heldRequest := Some(4)))
  {
    var n := c.ir.start;
    FirstLogReads(c, n);
    ReadsNext(FirstLog(c), n, NotRequested, 0, Idle, Event(NodeFailed(n, true), 0));
    ReadsNext(FailedLog(c), n, NotRequested, 0, NoProgress, RequestEvent(c));
    ReadsNext(FailedLog(c) + [RequestEvent(c)], n, ApprovalStatus.Pending(4, FirstRequest(c)), 0,
              NoProgress.(held := true, heldRequest := Some(4)), Event(Approval(c, 4), 2));
  }

  lemma LateRetryIsReached(cfg: Config, c: Cast)
    requires c.Gated() && c.attempts > 1
    ensures Reaches(cfg, LateRetry(c),
                    Scene(c, LateLog(c), map[1 := SecondLease(c).(status := ItemStatus.Completed)], {}, {}))
  {
    var acts := Opening(c) + [ClaimItem(1, c.worker)] + [SweepRequeue(1, 0)]
                + [SweepRecordFailure(1, c.ir.start, true, 0)] + [ClaimItem(1, c.worker)];
    var it, log := SecondLease(c), FailedLog(c);
    var done := it.(status := ItemStatus.Completed);
    SweepRequeues(cfg, c);
    LateLogReads(c);
    Raises(cfg, c, log, map[1 := it], {}, {});
    Next(cfg, acts, Scene(c, log, map[1 := it], {}, {}), RaiseRequest(1, FirstRequest(c), 1));
    Appends(c, log, map[1 := it], {}, {}, RequestEvent(c).kind, 1);
    HeldAndApproved(cfg, c, acts + [RaiseRequest(1, FirstRequest(c), 1)], log + [RequestEvent(c)], it, 4);
  }

  lemma {:induction false} HeldAndApproved(cfg: Config, c: Cast, acts: seq<Action>, log: Log, it: Item, answered: nat)
    requires c.Gated() && |log| > 0 && log[0].kind == WorkflowStarted(Some(c.initiator))
    requires Reaches(cfg, acts, Scene(c, log, map[1 := it], {}, {}))
    requires it.run == 1 && it.node == c.ir.start && it.status.Claimed? && it.claimedAt <= |log|
    requires NodeApprovalStatus(log, c.ir.start) == ApprovalStatus.Pending(answered, FirstRequest(c))
    requires ApprovalFold(log, c.ir.start).Withholds()
    ensures Reaches(cfg, acts + [SettleHeld(1, it.fence)] + [Approving(c, answered)],
                    Scene(c, log + [Event(Approval(c, answered), 2)], map[1 := it.(status := ItemStatus.Completed)], {}, {}))
  {
    var done := it.(status := ItemStatus.Completed);
    Settles(cfg, c, log, map[1 := it], {}, {});
    Next(cfg, acts, Scene(c, log, map[1 := it], {}, {}), SettleHeld(1, it.fence));
    assert map[1 := it][1 := done] == map[1 := done];
    Decides(cfg, c, log, map[1 := done], {}, {}, answered);
    Next(cfg, acts + [SettleHeld(1, it.fence)], Scene(c, log, map[1 := done], {}, {}), Approving(c, answered));
  }

  /** A late event then takes the slot the approval freed. */
  lemma LateEventLands(cfg: Config, c: Cast, a: Action, kind: EventKind)
    requires c.Gated() && c.attempts > 1
    requires (a == SweepRecordRetry(1, c.ir.start, 3) && kind == RetryScheduled(c.ir.start))
          || (a == RecordStarted(1, c.ir.start, 3) && kind == NodeStarted(c.ir.start))
    ensures Reaches(cfg, LateRetry(c) + [a], Scene(c, LateLog(c) + [Event(kind, 3)], LateItems(c), {}, {}))
    ensures Stranded(Scene(c, LateLog(c) + [Event(kind, 3)], LateItems(c), {}, {}), 1, c.ir.start)
  {
    LateRetryIsReached(cfg, c);
    Next(cfg, LateRetry(c), Scene(c, LateLog(c), LateItems(c), {}, {}), a);
    Appends(c, LateLog(c), LateItems(c), {}, {}, kind, 3);
    LateEventStrands(c, kind);
  }

  function LateItems(c: Cast): map<ItemId, Item> {
    map[1 := SecondLease(c).(status := ItemStatus.Completed)]
  }

  lemma LateEventStrands(c: Cast, kind: EventKind)
    requires c.Gated() && ClosesLate(kind, c.ir.start)
    ensures Stranded(Scene(c, LateLog(c) + [Event(kind, 3)], LateItems(c), {}, {}), 1, c.ir.start)
  {
    var decided := Approved(5, Some(Bound(c, c.payload)));
    LateLogReads(c);
    ReadsNext(LateLog(c), c.ir.start, decided, 0, NoProgress.(heldRequest := Some(4)), Event(kind, 3));
    SettledSceneIsStranded(c, LateLog(c) + [Event(kind, 3)], LateItems(c), decided, Idle.(heldRequest := Some(4)));
  }

  /** The sweep's retry: the node is scheduled, its item is settled, and nobody will dispatch it again. */
  lemma LateRetryStrands(cfg: Config, c: Cast)
    requires c.Gated() && c.attempts > 1
    ensures var acts := LateRetry(c) + [SweepRecordRetry(1, c.ir.start, 3)];
            Reaches(cfg, acts, After(EmptyStore, acts)) && Stranded(After(EmptyStore, acts), 1, c.ir.start)
  {
    LateEventLands(cfg, c, SweepRecordRetry(1, c.ir.start, 3), RetryScheduled(c.ir.start));
  }

  /** The same by the worker that lost the first lease, if it records its start only now. */
  lemma LateStartStrands(cfg: Config, c: Cast)
    requires c.Gated() && c.attempts > 1
    ensures var acts := LateRetry(c) + [RecordStarted(1, c.ir.start, 3)];
            Reaches(cfg, acts, After(EmptyStore, acts)) && Stranded(After(EmptyStore, acts), 1, c.ir.start)
  {
    LateEventLands(cfg, c, RecordStarted(1, c.ir.start, 3), NodeStarted(c.ir.start));
  }

  // ---------------------------------------------------------------------------
  // One approval, two results
  // ---------------------------------------------------------------------------

  /** The settle of a held item fails and its lease lapses, so the item is back in the queue when the request
      is approved; the scheduler dispatches the node anew, as item 2, with the same payload. Both items are
      claimed and both are released, on the one approval. */
  function Twice(c: Cast): seq<Action>
    requires c.Gated()
  {
    Asking(c) + [ExpireLease(1, 1)] + [Approving(c, 3)] + [ScheduleNode(1, c.ir.start, 3)]
    + [EnqueueItem(2, 1, c.ir.start, c.payload, 3)]
    + [ClaimItem(1, c.worker)] + [ClaimItem(2, c.worker)] + [ReleaseItem(1, 3)] + [ReleaseItem(2, 1)]
  }

  function ExpiredLog(c: Cast): Log
    requires c.Gated()
  {
    AskedLog(c) + [Event(NodeFailed(c.ir.start, true), 1)] + [Event(RetryScheduled(c.ir.start), 1)]
  }

  function TwiceLog(c: Cast): Log
    requires c.Gated()
  {
    ExpiredLog(c) + [Event(Approval(c, 3), 2)] + [Event(NodeScheduled(c.ir.start), 3)]
  }

  function FirstAgain(c: Cast): Item {
    ClaimedBy(Requeued(ClaimedBy(FirstItem(c), c.worker, 2)), c.worker, 7)
  }

  /** The same action, dispatched anew. */
  function Again(c: Cast): Item {
    NewItem(1, c.ir.start, c.payload, 3)
  }

  function SecondOnce(c: Cast): Item {
    ClaimedBy(Again(c), c.worker, 7)
  }

  lemma TwiceLogReads(c: Cast)
    requires c.Gated()
    requires Reads(AskedLog(c), c.ir.start, ApprovalStatus.Pending(3, FirstRequest(c)), 0,
                   Idle.(held := true, heldRequest := Some(3)))
    requires LatestRequest(AskedLog(c), c.ir.start) == Some((3, FirstRequest(c)))
    ensures NodeApprovalStatus(ExpiredLog(c), c.ir.start) == ApprovalStatus.Pending(3, FirstRequest(c))
    ensures NodeApprovalStatus(TwiceLog(c), c.ir.start) == Approved(6, Some(Bound(c, c.payload)))
    ensures Completions(TwiceLog(c), c.ir.start) == 0
    ensures AnsweredRequest(TwiceLog(c), c.ir.start) == Some((3, FirstRequest(c)))
  {
    var n := c.ir.start;
    var asked := ApprovalStatus.Pending(3, FirstRequest(c));
    var decided := Approved(6, Some(Bound(c, c.payload)));
    var e3, e4, e5, e6 := Event(NodeFailed(n, true), 1), Event(RetryScheduled(n), 1), Event(Approval(c, 3), 2),
                          Event(NodeScheduled(n), 3);
    ReadsNext(AskedLog(c), n, asked, 0, Idle.(held := true, heldRequest := Some(3)), e3);
    ReadsNext(AskedLog(c) + [e3], n, asked, 0, NoProgress.(held := true, heldRequest := Some(3)), e4);
    ReadsNext(ExpiredLog(c), n, asked, 0, Idle.(held := true, heldRequest := Some(3)), e5);
    ReadsNext(ExpiredLog(c) + [e5], n, decided, 0, NoProgress.(heldRequest := Some(3)), e6);
    LatestNext(AskedLog(c), n, e3);
    LatestNext(AskedLog(c) + [e3], n, e4);
    LatestNext(ExpiredLog(c), n, e5);
    LatestNext(ExpiredLog(c) + [e5], n, e6);
  }

  lemma Lapses(c: Cast)
    requires c.Gated() && c.attempts > 1
    ensures var one := ClaimedBy(FirstItem(c), c.worker, 2);
            var s := Scene(c, AskedLog(c), map[1 := one], {}, {});
            Apply(s, ExpireLease(1, 1)) == Scene(c, ExpiredLog(c), map[1 := Requeued(one)], {}, {})
  {
    var one := ClaimedBy(FirstItem(c), c.worker, 2);
    assert map[1 := one][1 := Requeued(one)] == map[1 := Requeued(one)];
  }

  lemma TwiceIsDispatched(cfg: Config, c: Cast)
    requires c.Gated() && c.attempts > 1
    ensures var back := Requeued(ClaimedBy(FirstItem(c), c.worker, 2));
            Reaches(cfg, Twice(c)[..|Twice(c)| - 4],
                    Scene(c, TwiceLog(c), map[1 := back][2 := Again(c)], {}, {}))
    ensures NodeApprovalStatus(TwiceLog(c), c.ir.start) == Approved(6, Some(Bound(c, c.payload)))
    ensures Completions(TwiceLog(c), c.ir.start) == 0
    ensures AnsweredRequest(TwiceLog(c), c.ir.start) == Some((3, FirstRequest(c)))
  {
    var back := Requeued(ClaimedBy(FirstItem(c), c.worker, 2));
    var acts := Asking(c) + [ExpireLease(1, 1)];
    Asks(cfg, c);
    TwiceLogReads(c);
    TwiceIsApproved(cfg, c);
    Dispatches(cfg, c, acts + [Approving(c, 3)], ExpiredLog(c) + [Event(Approval(c, 3), 2)], map[1 := back], {}, 2, c.ir.start,
               c.payload);
    assert Twice(c)[..|Twice(c)| - 4] == acts + [Approving(c, 3)] + [ScheduleNode(1, c.ir.start, 3)]
                                         + [EnqueueItem(2, 1, c.ir.start, c.payload, 3)];
  }

  lemma TwiceIsApproved(cfg: Config, c: Cast)
    requires c.Gated() && c.attempts > 1
    requires NodeApprovalStatus(ExpiredLog(c), c.ir.start) == ApprovalStatus.Pending(3, FirstRequest(c))
    ensures Reaches(cfg, Asking(c) + [ExpireLease(1, 1)] + [Approving(c, 3)],
                    Scene(c, ExpiredLog(c) + [Event(Approval(c, 3), 2)],
                          map[1 := Requeued(ClaimedBy(FirstItem(c), c.worker, 2))], {}, {}))
  {
    var one := ClaimedBy(FirstItem(c), c.worker, 2);
    var acts, items := Asking(c) + [ExpireLease(1, 1)], map[1 := Requeued(one)];
    Asks(cfg, c);
    Next(cfg, Asking(c), Scene(c, AskedLog(c), map[1 := one], {}, {}), ExpireLease(1, 1));
    Lapses(c);
    Decides(cfg, c, ExpiredLog(c), items, {}, {}, 3);
    Next(cfg, acts, Scene(c, ExpiredLog(c), items, {}, {}), Approving(c, 3));
  }

  /** Handing out a lease of an item that the one approval covers. */
  lemma Releases(cfg: Config, c: Cast, items: map<ItemId, Item>, granted: set<(ItemId, int)>, i: ItemId)
    requires c.Gated() && i in items && items[i].run == 1 && items[i].node == c.ir.start
    requires items[i].payload == c.payload && items[i].status.Claimed? && items[i].heldSince <= 7
    requires 0 <= items[i].fence == items[i].epoch < 10
    requires NodeApprovalStatus(TwiceLog(c), c.ir.start) == Approved(6, Some(Bound(c, c.payload)))
    requires Completions(TwiceLog(c), c.ir.start) == 0
    ensures var s := Scene(c, TwiceLog(c), items, granted, {});
            && Legal(cfg, s, ReleaseItem(i, items[i].fence))
            && Apply(s, ReleaseItem(i, items[i].fence))
               == Scene(c, TwiceLog(c), items, granted + {(i, items[i].fence)}, {})
  {
    var s, log := Scene(c, TwiceLog(c), items, granted, {}), TwiceLog(c);
    assert log[..|log|] == log && |log| == 7;
    assert Fired(s, i, Gate, |log|, |log|, Allow, NoDeadline);
  }

  function TwiceItems(c: Cast): map<ItemId, Item> {
    map[1 := FirstAgain(c), 2 := SecondOnce(c)]
  }

  lemma TwiceIsClaimed(cfg: Config, c: Cast)
    requires c.Gated()
    requires Reaches(cfg, Twice(c)[..|Twice(c)| - 4],
                     Scene(c, TwiceLog(c), map[1 := Requeued(ClaimedBy(FirstItem(c), c.worker, 2))][2 := Again(c)], {}, {}))
    ensures Reaches(cfg, Twice(c)[..|Twice(c)| - 2], Scene(c, TwiceLog(c), TwiceItems(c), {}, {}))
  {
    var acts, log := Twice(c), TwiceLog(c);
    var k := |acts|;
    var items := map[1 := Requeued(ClaimedBy(FirstItem(c), c.worker, 2))][2 := Again(c)];
    Claims(cfg, c, log, items, {}, {}, 1);
    Next(cfg, acts[..k - 4], Scene(c, log, items, {}, {}), ClaimItem(1, c.worker));
    var mid := items[1 := FirstAgain(c)];
    Claims(cfg, c, log, mid, {}, {}, 2);
    Next(cfg, acts[..k - 4] + [ClaimItem(1, c.worker)], Scene(c, log, mid, {}, {}), ClaimItem(2, c.worker));
    assert mid[2 := SecondOnce(c)] == TwiceItems(c);
    assert acts[..k - 2] == acts[..k - 4] + [ClaimItem(1, c.worker)] + [ClaimItem(2, c.worker)];
  }

  lemma TwiceIsReleased(cfg: Config, c: Cast)
    requires c.Gated() && c.attempts > 1
    ensures Reaches(cfg, Twice(c), Scene(c, TwiceLog(c), TwiceItems(c), {(1, 3), (2, 1)}, {}))
    ensures NodeApprovalStatus(TwiceLog(c), c.ir.start).Approved? && Completions(TwiceLog(c), c.ir.start) == 0
    ensures AnsweredRequest(TwiceLog(c), c.ir.start) == Some((3, FirstRequest(c)))
  {
    var acts := Twice(c);
    var k := |acts|;
    TwiceIsDispatched(cfg, c);
    TwiceIsClaimed(cfg, c);
    Releases(cfg, c, TwiceItems(c), {}, 1);
    Next(cfg, acts[..k - 2], Scene(c, TwiceLog(c), TwiceItems(c), {}, {}), ReleaseItem(1, 3));
    Releases(cfg, c, TwiceItems(c), {} + {(1, 3)}, 2);
    Next(cfg, acts[..k - 2] + [ReleaseItem(1, 3)], Scene(c, TwiceLog(c), TwiceItems(c), {} + {(1, 3)}, {}), ReleaseItem(2, 1));
    assert acts == acts[..k - 2] + [ReleaseItem(1, 3)] + [ReleaseItem(2, 1)];
    assert {} + {(1, 3)} + {(2, 1)} == {(1, 3), (2, 1)};
  }

  /** The results: item 1's under its second lease, item 2's under its first. */
  function Result(c: Cast, i: ItemId, fence: int, output: Output): Action {
    CommitTurn(i, fence, 1, c.ir.start, Done(output), 4)
  }

  function ResultEvent(c: Cast, output: Output): Event {
    Event(NodeCompleted(c.ir.start, output), 4)
  }

  lemma BothAreRecorded(cfg: Config, c: Cast, one: Output, two: Output)
    requires c.Gated() && c.attempts > 1
    ensures var items := map[1 := FirstAgain(c).(status := ItemStatus.Completed),
                             2 := SecondOnce(c).(status := ItemStatus.Completed)];
            Reaches(cfg, Twice(c) + [Result(c, 1, 3, one)] + [Result(c, 2, 1, two)],
                    Scene(c, TwiceLog(c) + [ResultEvent(c, one)] + [ResultEvent(c, two)], items, {(1, 3), (2, 1)}, {}))
  {
    var log, granted := TwiceLog(c), {(1, 3), (2, 1)};
    var items := TwiceItems(c);
    TwiceIsReleased(cfg, c);
    assert log[..7] == log && (log + [ResultEvent(c, one)])[..7] == log;
    Records(cfg, c, log, items, granted, 1, 7, one);
    Next(cfg, Twice(c), Scene(c, log, items, granted, {}), Result(c, 1, 3, one));
    var mid := items[1 := items[1].(status := ItemStatus.Completed)];
    Records(cfg, c, log + [ResultEvent(c, one)], mid, granted, 2, 7, two);
    Next(cfg, Twice(c) + [Result(c, 1, 3, one)], Scene(c, log + [ResultEvent(c, one)], mid, granted, {}), Result(c, 2, 1, two));
    assert mid[2 := mid[2].(status := ItemStatus.Completed)]
        == map[1 := FirstAgain(c).(status := ItemStatus.Completed), 2 := SecondOnce(c).(status := ItemStatus.Completed)];
  }

  /** Both gates counted before either result was recorded, so both results are: two completions of a gated
      node by two released leases, and one approval in the log. */
  lemma OneApprovalTwoResults(cfg: Config, c: Cast, one: Output, two: Output)
    requires c.Gated() && c.attempts > 1
    ensures var acts := Twice(c) + [Result(c, 1, 3, one)] + [Result(c, 2, 1, two)];
            var s := After(EmptyStore, acts);
            var log := LogOf(s, 1);
            && Reaches(cfg, acts, s) && (1, 3) in s.granted && (2, 1) in s.granted
            && |log| == 9 && log[7] == ResultEvent(c, one) && log[8] == ResultEvent(c, two)
            && (forall j | 0 <= j < |log| :: log[j].kind.ApprovalReceived? <==> j == 5)
            && (c.Def().rule == Some(Gate) ==> RunSafety.Gated(s, 1, c.ir.start))
  {
    BothAreRecorded(cfg, c, one, two);
    TwiceLogIs(c, [ResultEvent(c, one)] + [ResultEvent(c, two)]);
    assert TwiceLog(c) + [ResultEvent(c, one)] + [ResultEvent(c, two)]
        == TwiceLog(c) + ([ResultEvent(c, one)] + [ResultEvent(c, two)]);
  }

  lemma TwiceLogIs(c: Cast, more: seq<Event>)
    requires c.Gated() && forall e | e in more :: !e.kind.ApprovalReceived?
    ensures var log := TwiceLog(c) + more;
            |log| == 7 + |more| && forall j | 0 <= j < |log| :: log[j].kind.ApprovalReceived? <==> j == 5
  {
    assert |TwiceLog(c)| == 7;
  }
}
