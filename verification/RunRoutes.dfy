/**
 The routes that register a workflow, start and cancel a run, renew a lease and record a result
 (runtime/api/src/routes.rs). As in `Routes`, others write between any two calls and calls may fail.
 */
module RunRoutes {
  import opened Wrappers
  import opened Workflow
  import opened EventLog
  import opened Fences
  import opened Approvals
  import opened Guard
  import opened RunStore
  import opened StoreHistory
  import opened LogEffects
  import opened RunSafety
  import opened Backend
  import opened Routes

  // ---------------------------------------------------------------------------
  // Register and start
  // ---------------------------------------------------------------------------

  datatype Registration = Created | Existing | Conflict | Failed

  lemma DefinitionStored(s: Store, t: Store, key: WorkflowKey)
    requires Later(s, t) && key in s.workflows
    ensures key in t.workflows && t.workflows[key] == s.workflows[key]
  {
    LaterIs(s, t);
  }

  /** A version that was ever registered keeps its definition, whoever registers what; the route answers
      that it stands exactly when the stored definition is the one sent. */
  method CreateWorkflow(b: StateBackend, key: WorkflowKey, ir: Ir, w: World) returns (reply: Registration)
    requires b.Valid()
    modifies b
    ensures b.Valid() && Later(old(b.State()), b.State())
    ensures old(key in b.workflows) ==> key in b.workflows && b.workflows[key] == old(b.workflows)[key]
    ensures reply.Created? || reply.Existing? ==> key in b.workflows && b.workflows[key] == ir
    ensures reply.Conflict? ==> key in b.workflows && b.workflows[key] != ir
    ensures reply.Failed? <==> w.fails(0) || (w.fails(1) && old(key !in b.workflows))
    ensures Quiet(w) ==> (reply.Created? <==> old(key !in b.workflows))
  {
    ghost var s0 := b.State();
    LaterIs(s0, s0);
    if w.fails(0) { return Registration.Failed; }
    var existing := b.GetWorkflow(key);
    if existing.Some? {
      return if existing.value == ir then Existing else Conflict;
    }
    b.Interfere(w.others(1));
    if w.fails(1) { return Registration.Failed; }
    ghost var s1 := b.State();
    var accepted := b.StoreWorkflow(key, ir);
    LaterTransitive(s0, s1, b.State());
    return if accepted then Created else Conflict;
  }

  datatype StartError = WorkflowNotFound | NoStartNode | Unwritten

  /** A run starts whole or not at all: running, with its two first events and its start node's item
      queued, under the workflow version that was read. */
  method StartRun(b: StateBackend, r: RunId, key: WorkflowKey, initiator: Option<Principal>, i: ItemId,
                  payload: Payload, maxAttempts: nat, w: World)
    returns (reply: Result<RunId, StartError>)
    requires b.Valid()
    modifies b
    ensures b.Valid() && Later(old(b.State()), b.State())
    ensures reply.Ok? ==>
              && reply.value == r && r in b.runs && i in b.items && key in b.workflows
              && var start := b.workflows[key].start;
              && start in b.workflows[key].nodes
              && b.runs[r] == Run(key, Running, [Event(WorkflowStarted(initiator), w.clock(1)),
                                                 Event(NodeScheduled(start), w.clock(1))])
              && b.items[i] == Item(r, start, payload, 0, maxAttempts, Queued, None, 0, 0, None, 0, 0)
              && b.own == old(b.own) + [StartExecution(r, key, initiator, i, payload, maxAttempts, w.clock(1))]
    ensures reply.Err? ==> b.own == old(b.own)
    ensures old(r in b.runs) ==> reply.Err?
    ensures Quiet(w) ==>
              (reply.Ok? <==> && old(key in b.workflows) && old(b.workflows)[key].start in old(b.workflows)[key].nodes
                              && old(r !in b.runs) && old(i !in b.items))
  {
    ghost var s0 := b.State();
    LaterIs(s0, s0);
    if w.fails(0) { return Err(Unwritten); }
    var def := b.GetWorkflow(key);
    if def.None? { return Err(WorkflowNotFound); }
    if def.value.start !in def.value.nodes { return Err(NoStartNode); }
    b.Interfere(w.others(1));
    ghost var s1 := b.State();
    if w.fails(1) { return Err(Unwritten); }
    DefinitionStored(s0, s1, key);
    RunStays(s0, s1, r);
    var started := b.StartExecutionAtomic(r, key, initiator, i, payload, maxAttempts, w.clock(1));
    if !started { return Err(Unwritten); }
    LaterTransitive(s0, s1, b.State());
    return Ok(r);
  }

  lemma RunStays(s: Store, t: Store, r: RunId)
    requires Later(s, t)
    ensures r in s.runs ==> r in t.runs && s.runs[r].log <= t.runs[r].log
  {
    LaterIs(s, t);
  }

  // ---------------------------------------------------------------------------
  // Cancel
  // ---------------------------------------------------------------------------

  datatype CancelError = NotFound | Ended(status: WorkflowStatus) | Unreachable

  /** A cancel that is acknowledged was recorded as the last entry of a live run's log, with the status,
      in one write. A cancel that is refused wrote nothing, and names the status the run ended with. */
  method CancelExecution(b: StateBackend, r: RunId, w: World) returns (reply: Result<RunId, CancelError>)
    requires b.Valid()
    modifies b
    ensures b.Valid() && Later(old(b.State()), b.State())
    ensures reply.Ok? ==>
              && b.own == old(b.own) + [Action.FinishExecution(r, Cancelled, w.clock(1))]
              && r in b.runs && b.runs[r].status.Cancelled?
              && |b.runs[r].log| > 0 && b.runs[r].log[|b.runs[r].log| - 1] == Event(WorkflowCancelled, w.clock(1))
    ensures reply.Err? ==> b.own == old(b.own)
    ensures reply.Err? && reply.error.Ended? ==>
              r in b.runs && b.runs[r].status.IsTerminal() && b.runs[r].status == reply.error.status
    ensures old(Terminal(b.State(), r)) && !w.fails(0) ==> reply == Err(Ended(old(b.runs)[r].status))
    ensures Quiet(w) ==> (reply.Ok? <==> old(LiveRun(b.State(), r)))
  {
    ghost var s0 := b.State();
    LaterIs(s0, s0);
    if w.fails(0) { return Err(Unreachable); }
    var execution := b.GetExecution(r);
    if execution.None? { return Err(CancelError.NotFound); }
    if execution.value.1.IsTerminal() { return Err(Ended(execution.value.1)); }
    b.Interfere(w.others(1));
    ghost var s1 := b.State();
    if w.fails(1) { return Err(Unreachable); }
    var result := b.FinishExecution(r, Cancelled, w.clock(1));
    LaterTransitive(s0, s1, b.State());
    match result
    case Finished => reply := Ok(r);
    case AlreadyTerminal(status) => reply := Err(Ended(status));
    case NoSuchRun => reply := Err(CancelError.NotFound);
  }

  /** What an acknowledged cancel means for everything after it: the log keeps the cancel, and no result,
      decision or second ending is ever recorded behind it. */
  lemma {:induction false} NothingAfterCancel(cfg: Config, s: Store, acts: seq<Action>, r: RunId, k: nat)
    requires WellFormed(s) && AllSafe(cfg, s) && ValidTrace(cfg, s, acts) && NeverResumes(acts)
    requires r in s.runs && k < |s.runs[r].log| && s.runs[r].log[k].kind.WorkflowCancelled?
    ensures var t := After(s, acts);
            && r in t.runs && s.runs[r].log <= t.runs[r].log
            && t.runs[r].status.IsTerminal()
            && forall j | k < j < |t.runs[r].log| :: !NeedsLiveRun(t.runs[r].log[j].kind)
  {
    TraceIsSafe(cfg, s, acts);
    TraceExtends(cfg, s, acts);
    var t := After(s, acts);
    assert RunExtends(s.runs[r], t.runs[r]);
    assert Safe(cfg, t, r);
    assert t.runs[r].log[k] == s.runs[r].log[k];
    assert HasEnd(t.runs[r].log);
  }

  // ---------------------------------------------------------------------------
  // Heartbeat
  // ---------------------------------------------------------------------------

  datatype Beat = Renewed(fence: int, reattached: bool, cancelRequested: bool) | LeaseLost | Unanswered

  /** A heartbeat writes nothing but the re-attachment of the caller's own expired lease, and it signals a
      cancel only when the item's run has ended. The fence it tells is the one the item was held under, by this
      worker, when the lease was renewed (`renewedAt`): the old one of a lease that was never lost, and a new one
      of a lease taken back. */
  method HeartbeatWorkItem(b: StateBackend, i: ItemId, worker: WorkerId, fence: int, w: World)
    returns (beat: Beat, ghost renewedAt: Store)
    requires b.Valid()
    modifies b
    ensures b.Valid() && Later(old(b.State()), b.State())
    ensures beat.LeaseLost? ==> b.own == old(b.own)
    ensures beat.Renewed? && !beat.reattached ==> beat.fence == fence && b.own == old(b.own)
    ensures beat.Renewed? && beat.reattached ==>
              b.own == old(b.own) + [Reattach(i, worker, fence)] && beat.fence != fence
    ensures beat.Renewed? ==>
              && Later(old(b.State()), renewedAt) && Later(renewedAt, b.State())
              && HeldUnder(renewedAt, i, beat.fence) && renewedAt.items[i].worker == Some(worker)
    ensures Quiet(w) && beat.Renewed? ==>
              HeldUnder(b.State(), i, beat.fence) && b.items[i].worker == Some(worker)
    ensures beat.Renewed? && beat.cancelRequested ==> i in b.items && Terminal(b.State(), b.items[i].run)
    ensures Quiet(w) ==>
              (beat.Renewed? <==>
                 || (old(HeldUnder(b.State(), i, fence)) && old(b.items)[i].worker == Some(worker))
                 || (old(CanReattach(b.State(), i, worker, fence)) && old(b.items)[i].epoch + 1 < EPOCHS))
    ensures Quiet(w) && beat.Renewed? ==>
              i in b.items && (beat.cancelRequested <==> Terminal(b.State(), b.items[i].run))
  {
    ghost var s0 := b.State();
    LaterIs(s0, s0);
    renewedAt := s0;
    b.Interfere(w.others(0));
    ghost var s1 := b.State();
    if w.fails(0) { return Unanswered, renewedAt; }
    var renewal := b.HeartbeatLease(i, worker, fence);
    renewedAt := b.State();
    LaterIs(renewedAt, renewedAt);
    LaterTransitive(s0, s1, renewedAt);
    if renewal.None? { return LeaseLost, renewedAt; }
    if renewal.value.reattached { TakenBackIsNew(renewedAt, i, fence, renewal.value.fence); }
    var cancelRequested := CancelSignal(b, i, w);
    LaterTransitive(s0, renewedAt, b.State());
    if cancelRequested.None? { return Unanswered, renewedAt; }
    return Renewed(renewal.value.fence, renewal.value.reattached, cancelRequested.value), renewedAt;
  }

  lemma TakenBackIsNew(s: Store, i: ItemId, lost: int, fence: int)
    requires WellFormed(s) && HeldUnder(s, i, fence) && s.items[i].epoch == FenceEpoch(lost) + 2
    ensures fence != lost
  {
    assert ItemWellFormed(s, i);
  }

  /** Whether the item's run has ended; `None` if a read failed. */
  method CancelSignal(b: StateBackend, i: ItemId, w: World) returns (ended: Option<bool>)
    requires b.Valid()
    modifies b
    ensures b.Valid() && Later(old(b.State()), b.State()) && b.own == old(b.own)
    ensures ended == Some(true) ==> i in b.items && Terminal(b.State(), b.items[i].run)
    ensures Quiet(w) ==>
              && b.State() == old(b.State())
              && ended == Some(i in b.items && Terminal(b.State(), b.items[i].run))
  {
    ghost var s0 := b.State();
    b.Interfere(w.others(1));
    ghost var s1 := b.State();
    if w.fails(1) { return None; }
    var item := b.GetWorkItem(i);
    if item.None? { return Some(false); }
    b.Interfere(w.others(2));
    CoordinatesStay(s1, b.State(), i);
    LaterTransitive(s0, s1, b.State());
    if w.fails(2) { return None; }
    var execution := b.GetExecution(item.value.run);
    return Some(execution.Some? && execution.value.1.IsTerminal());
  }

  // ---------------------------------------------------------------------------
  // Record a result
  // ---------------------------------------------------------------------------

  datatype GateReply = Pass | Refuse | CannotTell

  /** A result for item `i` may be recorded: the policies permit its node, or they gate it and its latest
      request was approved for the occurrence at hand. */
  predicate IsCompletable(s: Store, i: ItemId, tenant: Rule) {
    var def := DefOf(s, i);
    && def.Some?
    && var it := s.items[i];
    && var log := LogOf(s, it.run);
    && (|| Says(def.value, tenant, Permit)
        || (Says(def.value, tenant, Gate)
            && ApprovedForOccurrence(log, it.node, Completions(log, it.node), ActionOf(s, i, def.value))))
  }

  /** The item's node has a definition, and neither its workflow nor, where that is silent, the tenant denies it. */
  predicate IsNotDenied(s: Store, i: ItemId, tenant: Rule) {
    var def := DefOf(s, i);
    def.Some? && def.value.rule != Some(Deny) && !(def.value.rule.None? && tenant.Deny?)
  }

  /** The two, unfolded only where a proof names them. */
  ghost predicate CompletableNow(s: Store, i: ItemId, tenant: Rule) {
    forall t | t == tenant :: IsCompletable(s, i, t)
  }

  ghost predicate NotDenied(s: Store, i: ItemId, tenant: Rule) {
    forall t | t == tenant :: IsNotDenied(s, i, t)
  }

  lemma CompletableIs(s: Store, i: ItemId, tenant: Rule)
    ensures CompletableNow(s, i, tenant) <==> IsCompletable(s, i, tenant)
  {
    assert CompletableNow(s, i, tenant) ==> IsCompletable(s, i, tenant);
  }

  /** `completion_gate`: passes a result only under evidence that stays good until the commit. Writes nothing. */
  method CompletionGate(b: StateBackend, i: ItemId, wi: Item, tenant: Rule, w: World) returns (reply: GateReply)
    requires b.Valid() && i in b.items
    requires b.items[i].run == wi.run && b.items[i].node == wi.node && b.items[i].payload == wi.payload
    modifies b
    ensures b.Valid() && Later(old(b.State()), b.State()) && b.own == old(b.own)
    ensures reply.Pass? ==> WasCompletable(b.State(), i) && NotDenied(b.State(), i, tenant)
    ensures reply.CannotTell? ==> w.fails(0) || w.fails(1) || w.fails(2) || w.fails(3)
    ensures Quiet(w) ==> b.State() == old(b.State()) && (reply.Pass? <==> CompletableNow(b.State(), i, tenant))
  {
    ghost var s0 := b.State();
    LaterIs(s0, s0);
    if w.fails(0) { return CannotTell; }
    var execution := b.GetExecution(wi.run);
    if execution.None? { return Refuse; }
    b.Interfere(w.others(1));
    ghost var s1 := b.State();
    if w.fails(1) { return CannotTell; }
    var ir := b.GetWorkflow(execution.value.0);
    CompletableIs(s1, i, tenant);
    if ir.None? || wi.node !in ir.value.nodes { return Refuse; }
    var def := ir.value.nodes[wi.node];
    SameDefinition(s0, s0, s1, i, execution.value.0, ir.value);
    DefinitionStays(s0, s1, i);
    CoordinatesStay(s0, s1, i);
    reply := GuardCompletion(b, i, wi, def, tenant, w);
    LaterTransitive(s0, s1, b.State());
  }

  /** `guard_item` in its completing mode: read the log, then count the completions. */
  method GuardCompletion(b: StateBackend, i: ItemId, wi: Item, def: NodeDef, tenant: Rule, w: World)
    returns (reply: GateReply)
    requires b.Valid() && DefOf(b.State(), i) == Some(def)
    requires b.items[i].run == wi.run && b.items[i].node == wi.node && b.items[i].payload == wi.payload
    modifies b
    ensures b.Valid() && Later(old(b.State()), b.State()) && b.own == old(b.own)
    ensures reply.Pass? ==> WasCompletable(b.State(), i) && NotDenied(b.State(), i, tenant)
    ensures reply.CannotTell? ==> w.fails(0) || w.fails(1) || w.fails(2) || w.fails(3)
    ensures Quiet(w) ==> b.State() == old(b.State()) && (reply.Pass? <==> CompletableNow(b.State(), i, tenant))
  {
    ghost var s0 := b.State();
    LaterIs(s0, s0);
    if w.fails(2) { return CannotTell; }
    var log := b.GetEvents(wi.run);
    b.Interfere(w.others(3));
    if w.fails(3) { return CannotTell; }
    var step := b.CountNodeCompletions(wi.run, wi.node);
    var outcome := GuardComplete(def, tenant, log, wi.run, wi.node, wi.payload, step);
    CompletesIff(def, tenant, log, wi.run, wi.node, wi.payload, step);
    DefinitionStays(s0, b.State(), i);
    CompletableIs(s0, i, tenant);
    if outcome.Allow? {
      assert IsNotDenied(b.State(), i, tenant);
    }
    if outcome.Allow? {
      CompleteEvidence(s0, b.State(), i, def, tenant);
    }
    reply := if outcome.Allow? then Pass else if outcome.Unavailable? then CannotTell else Refuse;
    assert !outcome.Unavailable?;
  }

  datatype CompleteReply = Recorded | SettledOnly | StaleFence | RunOver(status: WorkflowStatus) | NotAllowed | Error

  /** What a recorded result left: the item settled, and the result as the last entry of its own live run. */
  predicate RecordedLast(s: Store, i: ItemId, output: Output, now: Time) {
    && i in s.items && s.items[i].status.Completed? && s.items[i].run in s.runs
    && var it := s.items[i];
    && var log := s.runs[it.run].log;
    && |log| > 0 && log[|log| - 1] == Event(NodeCompleted(it.node, output), now)
    && !s.runs[it.run].status.IsTerminal()
  }

  /** `complete_work_item` on the fenced path. A recorded result is the last entry of the item's own run,
      about the item's own node, and settled the item in the same write; a run that ended takes no result;
      every refusal before the commit wrote nothing; a fence no claim mints never reaches the store. */
  method CompleteWorkItem(b: StateBackend, i: ItemId, fence: int, output: Output, tenant: Rule, w: World, gw: World)
    returns (reply: CompleteReply)
    requires b.Valid()
    modifies b
    ensures b.Valid() && Later(old(b.State()), b.State())
    ensures fence <= 0 ==> reply.StaleFence?
    ensures reply.Recorded? ==>
              && RecordedLast(b.State(), i, output, w.clock(2))
              && WasCompletable(b.State(), i) && NotDenied(b.State(), i, tenant)
    ensures reply.RunOver? ==>
              && i in b.items && b.items[i].status.Settled()
              && Terminal(b.State(), b.items[i].run) && b.runs[b.items[i].run].status == reply.status
    ensures reply.Recorded? || reply.RunOver? ==>
              && i in b.items
              && b.own == old(b.own) + [CommitTurn(i, fence, b.items[i].run, b.items[i].node, Done(output), w.clock(2))]
    ensures reply.SettledOnly? ==>
              (w.fails(0) || old(i !in b.items)) && b.own == old(b.own) + [SettleBlind(i, fence)]
    ensures reply.StaleFence? || reply.NotAllowed? || reply.Error? ==> b.own == old(b.own)
    ensures Quiet(w) && Quiet(gw) ==>
              (reply.Recorded? <==> && fence > 0 && old(HeldUnder(b.State(), i, fence))
                                    && old(LiveRun(b.State(), b.items[i].run))
                                    && old(CompletableNow(b.State(), i, tenant)))
    ensures Quiet(w) && Quiet(gw) ==>
              && !reply.Error?
              && (reply.NotAllowed? <==> fence > 0 && old(i in b.items) && !old(CompletableNow(b.State(), i, tenant)))
  {
    ghost var s0 := b.State();
    LaterIs(s0, s0);
    var recorded := b.GetWorkItem(i);
    if fence <= 0 { return StaleFence; }
    if w.fails(0) || recorded.None? {
      reply := SettleUnread(b, i, fence, w);
      return;
    }
    reply := CompleteRead(b, i, recorded.value, fence, output, tenant, w, gw);
  }

  /** The rest of the route, once the item was read: the gate, and the commit under the item's own coordinates. */
  method CompleteRead(b: StateBackend, i: ItemId, wi: Item, fence: int, output: Output, tenant: Rule, w: World,
                      gw: World)
    returns (reply: CompleteReply)
    requires b.Valid() && i in b.items && b.items[i] == wi && fence > 0
    modifies b
    ensures b.Valid() && Later(old(b.State()), b.State())
    ensures !reply.SettledOnly?
    ensures reply.Recorded? ==>
              && RecordedLast(b.State(), i, output, w.clock(2))
              && WasCompletable(b.State(), i) && NotDenied(b.State(), i, tenant)
    ensures reply.RunOver? ==>
              && i in b.items && b.items[i].status.Settled()
              && Terminal(b.State(), b.items[i].run) && b.runs[b.items[i].run].status == reply.status
    ensures reply.Recorded? || reply.RunOver? ==>
              && i in b.items
              && b.own == old(b.own) + [CommitTurn(i, fence, b.items[i].run, b.items[i].node, Done(output), w.clock(2))]
    ensures reply.StaleFence? || reply.NotAllowed? || reply.Error? ==> b.own == old(b.own)
    ensures Quiet(w) && Quiet(gw) ==>
              (reply.Recorded? <==> && old(HeldUnder(b.State(), i, fence)) && old(LiveRun(b.State(), b.items[i].run))
                                    && old(CompletableNow(b.State(), i, tenant)))
    ensures Quiet(w) && Quiet(gw) ==>
              !reply.Error? && (reply.NotAllowed? <==> !old(CompletableNow(b.State(), i, tenant)))
  {
    ghost var s0 := b.State();
    b.Interfere(w.others(1));
    ghost var s1 := b.State();
    CoordinatesStay(s0, s1, i);
    var gate := CompletionGate(b, i, wi, tenant, gw);
    ghost var s2 := b.State();
    LaterTransitive(s0, s1, s2);
    if gate.Refuse? { return NotAllowed; }
    if gate.CannotTell? { return Error; }
    CoordinatesStay(s0, s2, i);
    reply := CommitGated(b, i, wi, fence, output, tenant, w);
    LaterTransitive(s0, s2, b.State());
  }

  /** What the gate passed, committed under the item's own coordinates. */
  method CommitGated(b: StateBackend, i: ItemId, wi: Item, fence: int, output: Output, tenant: Rule, w: World)
    returns (reply: CompleteReply)
    requires b.Valid() && WasCompletable(b.State(), i) && NotDenied(b.State(), i, tenant) && fence > 0
    requires b.items[i].run == wi.run && b.items[i].node == wi.node
    modifies b
    ensures b.Valid() && Later(old(b.State()), b.State())
    ensures reply.Recorded? || reply.RunOver? || reply.StaleFence? || reply.Error?
    ensures reply.Recorded? ==>
              && RecordedLast(b.State(), i, output, w.clock(2))
              && WasCompletable(b.State(), i) && NotDenied(b.State(), i, tenant)
    ensures reply.RunOver? ==>
              && i in b.items && b.items[i].status.Settled()
              && Terminal(b.State(), b.items[i].run) && b.runs[b.items[i].run].status == reply.status
    ensures reply.Recorded? || reply.RunOver? ==>
              && i in b.items
              && b.own == old(b.own) + [CommitTurn(i, fence, b.items[i].run, b.items[i].node, Done(output), w.clock(2))]
    ensures reply.StaleFence? || reply.Error? ==> b.own == old(b.own)
    ensures Quiet(w) ==>
              && !reply.Error?
              && (reply.Recorded? <==> old(HeldUnder(b.State(), i, fence)) && !old(Terminal(b.State(), wi.run)))
  {
    ghost var s2 := b.State();
    b.Interfere(w.others(2));
    if w.fails(2) { return Error; }
    reply := CommitResult(b, i, wi.run, wi.node, fence, output, w.clock(2), s2);
    NotDeniedStays(s2, b.State(), i, tenant);
  }

  lemma NotDeniedStays(s: Store, t: Store, i: ItemId, tenant: Rule)
    requires WellFormed(s) && Later(s, t) && NotDenied(s, i, tenant)
    ensures NotDenied(t, i, tenant)
  {
    assert IsNotDenied(s, i, tenant);
    DefinitionStays(s, t, i);
  }

  /** The commit, on evidence gathered when the store was `seen`. */
  method CommitResult(b: StateBackend, i: ItemId, r: RunId, n: NodeId, fence: int, output: Output, now: Time,
                      ghost seen: Store)
    returns (reply: CompleteReply)
    requires b.Valid() && WellFormed(seen) && Later(seen, b.State()) && fence > 0
    requires WasCompletable(seen, i) && seen.items[i].run == r && seen.items[i].node == n
    modifies b
    ensures b.Valid() && Later(seen, b.State())
    ensures reply.Recorded? || reply.RunOver? || (reply.StaleFence? && b.own == old(b.own))
    ensures reply.StaleFence? <==> !HeldUnder(old(b.State()), i, fence)
    ensures reply.Recorded? <==> HeldUnder(old(b.State()), i, fence) && !Terminal(old(b.State()), r)
    ensures !reply.StaleFence? ==>
              && b.own == old(b.own) + [CommitTurn(i, fence, r, n, Done(output), now)]
              && i in b.items && b.items[i].run == r && b.items[i].node == n && b.items[i].status.Settled()
    ensures reply.Recorded? ==>
              && b.items[i].status.Completed?
              && LiveRun(b.State(), r) && WasCompletable(b.State(), i)
              && |b.runs[r].log| > 0 && b.runs[r].log[|b.runs[r].log| - 1] == Event(NodeCompleted(n, output), now)
    ensures reply.RunOver? ==> Terminal(b.State(), r) && b.runs[r].status == reply.status
  {
    ghost var s0 := b.State();
    CoordinatesStay(seen, s0, i);
    CompletableStays(seen, s0, i);
    assert ItemWellFormed(s0, i);
    var result := b.CommitTurnUnlessTerminal(i, fence, NodeCompleted(n, output), r, now);
    ghost var s1 := b.State();
    LaterTransitive(seen, s0, s1);
    match result
    case Committed =>
      CoordinatesStay(s0, s1, i);
      CompletableStays(s0, s1, i);
      reply := Recorded;
    case ExecutionTerminal(status) =>
      CoordinatesStay(s0, s1, i);
      reply := RunOver(status);
    case FenceLost =>
      reply := StaleFence;
  }

  lemma CompletableStays(s: Store, t: Store, i: ItemId)
    requires WellFormed(s) && Later(s, t) && WasCompletable(s, i)
    ensures WasCompletable(t, i)
  {
    LaterIs(s, t);
    CompletableIsStable(s, t, i);
  }

  /** The arm for an item that could not be read: settle only, still under the fence. */
  method SettleUnread(b: StateBackend, i: ItemId, fence: int, w: World) returns (reply: CompleteReply)
    requires b.Valid()
    modifies b
    ensures b.Valid() && Later(old(b.State()), b.State())
    ensures reply.SettledOnly? ==> b.own == old(b.own) + [SettleBlind(i, fence)]
    ensures reply.SettledOnly? || ((reply.StaleFence? || reply.Error?) && b.own == old(b.own))
    ensures reply.Error? <==> w.fails(1)
  {
    ghost var s0 := b.State();
    b.Interfere(w.others(1));
    ghost var s1 := b.State();
    if w.fails(1) { return Error; }
    var settled := b.SettleUnreadItem(i, fence);
    LaterTransitive(s0, s1, b.State());
    return if settled then SettledOnly else StaleFence;
  }
}
