/**
 The state backend as the routes see it: tables updated in place, one method per transaction
 (runtime/state/src/sqlite.rs). Every method is proved to make exactly the step of the same name, and
 `Valid` says that the tables are what the legal writes so far made of the empty store, so everything
 proved about executions holds of the tables after every call.
 */
module Backend {
  import opened Wrappers
  import opened Workflow
  import opened EventLog
  import opened Fences
  import opened Approvals
  import opened Guard
  import opened RunStore
  import opened StoreHistory
  import opened LogEffects
  import opened RunSafety

  datatype TurnCommit = Committed | ExecutionTerminal(status: WorkflowStatus) | FenceLost

  datatype ConditionalAppend = Appended(sequence: nat) | Refused | RunEnded(status: WorkflowStatus) | NotFound

  datatype Finish = Finished | AlreadyTerminal(status: WorkflowStatus) | NoSuchRun

  datatype LeaseRenewal = LeaseRenewal(fence: int, reattached: bool)

  /** A terminal status is never left: what `Extends` does not say. */
  predicate EndsStay(s: Store, t: Store) {
    forall r | r in s.runs && s.runs[r].status.IsTerminal() :: r in t.runs && t.runs[r].status == s.runs[r].status
  }

  predicate Grows(s: Store, t: Store) {
    Extends(s, t) && EndsStay(s, t)
  }

  /** `Grows`, stated so that a proof unfolds it only where it names it. */
  ghost predicate Later(s: Store, t: Store) {
    forall u | u == t :: Grows(s, u)
  }

  lemma LaterIs(s: Store, t: Store)
    ensures Later(s, t) <==> Grows(s, t)
  {
    assert Later(s, t) ==> Grows(s, t);
  }

  lemma {:induction false} StepGrows(cfg: Config, s: Store, a: Action)
    requires WellFormed(s) && Legal(cfg, s, a) && !a.ResumeRun?
    ensures WellFormed(Apply(s, a)) && Grows(s, Apply(s, a))
  {
    ApplyExtends(cfg, s, a);
    forall r | r in s.runs && s.runs[r].status.IsTerminal()
      ensures r in Apply(s, a).runs && Apply(s, a).runs[r].status == s.runs[r].status
    {
      RunAfter(s, a, r);
    }
  }

  lemma LaterTransitive(s: Store, t: Store, u: Store)
    requires Later(s, t) && Later(t, u)
    ensures Later(s, u)
  {
    LaterIs(s, t);
    LaterIs(t, u);
    ExtendsTransitive(s, t, u);
    LaterIs(s, u);
  }

  predicate IsHistoryOf(cfg: Config, s: Store, history: seq<Action>) {
    ValidTrace(cfg, EmptyStore, history) && NeverResumes(history) && After(EmptyStore, history) == s && WellFormed(s)
  }

  /** The same, stated so that a proof unfolds the whole history only where it names `IsHistoryOf`. */
  ghost predicate Reached(cfg: Config, s: Store, history: seq<Action>) {
    forall h | h == history :: IsHistoryOf(cfg, s, h)
  }

  /** One step, unfolded only where a proof names `Apply` of it. */
  ghost predicate Steps(s: Store, a: Action, t: Store) {
    forall step | step == a :: t == Apply(s, step)
  }

  lemma {:induction false} HistoryStep(cfg: Config, s: Store, history: seq<Action>, a: Action)
    requires Reached(cfg, s, history) && Legal(cfg, s, a) && !a.ResumeRun?
    ensures Reached(cfg, Apply(s, a), history + [a]) && Later(s, Apply(s, a))
    ensures WellFormed(Apply(s, a))
  {
    assert IsHistoryOf(cfg, s, history);
    SingleStep(cfg, s, a);
    TraceConcat(cfg, EmptyStore, history, [a]);
    StepGrows(cfg, s, a);
    LaterIs(s, Apply(s, a));
  }

  lemma ReachedIsSafe(cfg: Config, s: Store, history: seq<Action>)
    requires Reached(cfg, s, history)
    ensures AllSafe(cfg, s)
  {
    assert IsHistoryOf(cfg, s, history);
    ReachableIsSafe(cfg, history);
  }

  /** What the others' writes make of a store: each in its turn, if it is one the code makes there. */
  function Meanwhile(cfg: Config, s: Store, others: seq<Action>): Store {
    if others == [] then s
    else
      var before := Meanwhile(cfg, s, others[..|others| - 1]);
      var a := others[|others| - 1];
      if Legal(cfg, before, a) && !a.ResumeRun? then Apply(before, a) else before
  }

  lemma MeanwhileOne(cfg: Config, s: Store, a: Action)
    ensures Meanwhile(cfg, s, [a]) == if Legal(cfg, s, a) && !a.ResumeRun? then Apply(s, a) else s
  {
    assert [a][..0] == [];
  }

  class StateBackend {
    const config: Config
    var workflows: map<WorkflowKey, Ir>
    var runs: map<RunId, Run>
    var items: map<ItemId, Item>
    var term: nat
    var granted: set<(ItemId, int)>
    var dispatching: set<(RunId, NodeId)>
    /** Every write so far, and those of them that the caller in hand made. */
    ghost var history: seq<Action>
    ghost var own: seq<Action>

    function State(): Store
      reads this
    {
      Store(workflows, runs, items, term, granted, dispatching)
    }

    ghost predicate Valid()
      reads this
    {
      WellFormed(State()) && Reached(config, State(), history)
    }

    /** A write by the caller in hand: exactly this step. */
    twostate predicate Did(a: Action)
      reads this
    {
      && Steps(old(State()), a, State())
      && Later(old(State()), State())
      && history == old(history) + [a]
      && own == old(own) + [a]
    }

    twostate predicate DidNothing()
      reads this
    {
      State() == old(State()) && Later(State(), State()) && history == old(history) && own == old(own)
    }

    constructor (config: Config)
      ensures Valid() && this.config == config && State() == EmptyStore && history == [] && own == []
    {
      this.config := config;
      workflows, runs, items, term := map[], map[], map[], 0;
      granted, dispatching := {}, {};
      history, own := [], [];
    }

    /** The same, unfolded only where a proof names `Meanwhile`. */
    ghost predicate Moved(s: Store, others: seq<Action>, t: Store) {
      forall o | o == others :: t == Meanwhile(config, s, o)
    }

    /** Anybody else's writes, between two calls of the caller in hand: any sequence of legal ones. The
        paused-to-running flip is not among them. */
    method Interfere(others: seq<Action>)
      requires Valid()
      modifies this
      ensures Valid() && own == old(own) && old(history) <= history
      ensures Later(old(State()), State())
      ensures others == [] ==> State() == old(State())
      ensures Moved(old(State()), others, State())
    {
      var k := 0;
      ghost var s0 := State();
      while k < |others|
        invariant 0 <= k <= |others|
        invariant Valid() && own == old(own) && old(history) <= history
        invariant Later(s0, State())
        invariant k == 0 ==> State() == s0
        invariant Moved(s0, others[..k], State())
      {
        ghost var before := State();
        InterfereOnce(others[k]);
        LaterTransitive(s0, before, State());
        MovesOn(s0, others, k, before, State());
        k := k + 1;
      }
      assert others[..|others|] == others;
    }

    lemma MovesOn(s: Store, others: seq<Action>, k: nat, t: Store, u: Store)
      requires k < |others| && Moved(s, others[..k], t) && u == Meanwhile(config, t, [others[k]])
      ensures Moved(s, others[..k + 1], u)
    {
      assert t == Meanwhile(config, s, others[..k]);
      MeanwhileOne(config, t, others[k]);
      var longer := others[..k + 1];
      assert longer[..k] == others[..k] && longer[k] == others[k];
      assert u == Meanwhile(config, s, longer);
    }

    /** The tables become those of `t`. */
    method TakeOver(t: Store)
      modifies this
      ensures State() == t && history == old(history) && own == old(own)
    {
      workflows, runs, items, term := t.workflows, t.runs, t.items, t.term;
      granted, dispatching := t.granted, t.dispatching;
    }

    method InterfereOnce(a: Action)
      requires Valid()
      modifies this
      ensures Valid() && own == old(own) && old(history) <= history
      ensures Later(old(State()), State())
      ensures State() == Meanwhile(config, old(State()), [a])
    {
      MeanwhileOne(config, State(), a);
      LaterIs(State(), State());
      if Legal(config, State(), a) && !a.ResumeRun? {
        ghost var before := State();
        HistoryStep(config, before, history, a);
        TakeOver(Apply(State(), a));
        history := history + [a];
      }
    }

    // -------------------------------------------------------------------------
    // Reads
    // -------------------------------------------------------------------------

    method GetWorkflow(key: WorkflowKey) returns (ir: Option<Ir>)
      ensures ir == if key in workflows then Some(workflows[key]) else None
    {
      ir := if key in workflows then Some(workflows[key]) else None;
    }

    /** The execution record; the log is read by `GetEvents`. */
    method GetExecution(r: RunId) returns (found: Option<(WorkflowKey, WorkflowStatus)>)
      ensures found == if r in runs then Some((runs[r].workflow, runs[r].status)) else None
    {
      found := if r in runs then Some((runs[r].workflow, runs[r].status)) else None;
    }

    method GetEvents(r: RunId) returns (log: Log)
      ensures log == LogOf(State(), r)
    {
      log := if r in runs then runs[r].log else [];
    }

    /** `count_node_completions`. */
    method CountNodeCompletions(r: RunId, n: NodeId) returns (count: nat)
      ensures count == Completions(LogOf(State(), r), n)
    {
      var log := GetEvents(r);
      count := 0;
      for k := 0 to |log|
        invariant count == Completions(log[..k], n)
      {
        assert log[..k + 1][..k] == log[..k];
        if log[k].kind.NodeCompleted? && log[k].kind.node == n {
          count := count + 1;
        }
      }
      assert log[..|log|] == log;
    }

    method GetWorkItem(i: ItemId) returns (item: Option<Item>)
      ensures item == if i in items then Some(items[i]) else None
    {
      item := if i in items then Some(items[i]) else None;
    }

    // -------------------------------------------------------------------------
    // Rows
    // -------------------------------------------------------------------------

    method PutItem(i: ItemId, item: Item)
      modifies this`items
      ensures State() == SetItem(old(State()), i, item)
    {
      items := items[i := item];
    }

    method PutEvent(r: RunId, kind: EventKind, now: Time)
      modifies this`runs
      ensures State() == RunStore.Append(old(State()), r, kind, now)
    {
      if r in runs {
        var run := runs[r];
        runs := runs[r := run.(log := run.log + [Event(kind, now)])];
      }
    }

    /** Files a write that the tables already show. */
    ghost method File(before: Store, a: Action)
      requires Reached(config, before, history) && Legal(config, before, a) && !a.ResumeRun?
      requires State() == Apply(before, a)
      modifies this`history, this`own
      ensures Valid() && Later(before, State())
      ensures history == old(history) + [a] && own == old(own) + [a]
    {
      HistoryStep(config, before, history, a);
      history, own := history + [a], own + [a];
    }

    // -------------------------------------------------------------------------
    // Transactions
    // -------------------------------------------------------------------------

    /** A version is written once. A second write of the same definition is accepted and changes nothing;
        a different one is refused. */
    method StoreWorkflow(key: WorkflowKey, ir: Ir) returns (accepted: bool)
      requires Valid()
      modifies this
      ensures Valid() && Did(Action.StoreWorkflow(key, ir))
      ensures key in workflows && (accepted <==> workflows[key] == ir)
      ensures workflows == if key in old(workflows) then old(workflows) else old(workflows)[key := ir]
    {
      ghost var before := State();
      if key !in workflows {
        workflows := workflows[key := ir];
      }
      File(before, Action.StoreWorkflow(key, ir));
      accepted := workflows[key] == ir;
    }

    /** The run, its first two events and the item for its start node, in one write. A key that is taken
        rolls the whole write back. */
    method StartExecutionAtomic(r: RunId, key: WorkflowKey, initiator: Option<Principal>, i: ItemId,
                                payload: Payload, maxAttempts: nat, now: Time) returns (started: bool)
      requires Valid() && key in workflows
      modifies this
      ensures Valid()
      ensures started <==> r !in old(runs) && i !in old(items)
      ensures started ==>
                && workflows == old(workflows)
                && items == old(items)[i := NewItem(r, workflows[key].start, payload, maxAttempts)]
                && runs == old(runs)[r := Run(key, Running, [Event(WorkflowStarted(initiator), now),
                                                             Event(NodeScheduled(workflows[key].start), now)])]
      ensures if started then Did(StartExecution(r, key, initiator, i, payload, maxAttempts, now)) else DidNothing()
    {
      started := r !in runs && i !in items;
      if started {
        ghost var before := State();
        var start := workflows[key].start;
        runs := runs[r := Run(key, Running, [])];
        PutEvent(r, WorkflowStarted(initiator), now);
        PutEvent(r, NodeScheduled(start), now);
        PutItem(i, NewItem(r, start, payload, maxAttempts));
        var a := StartExecution(r, key, initiator, i, payload, maxAttempts, now);
        assert State() == Apply(before, a) by {
          assert runs[r].log == [Event(WorkflowStarted(initiator), now), Event(NodeScheduled(start), now)];
        }
        File(before, a);
      }
    }

    /** A write that changed no table but the items. */
    twostate predicate OnlyItems()
      reads this
    {
      && workflows == old(workflows) && runs == old(runs) && term == old(term)
      && granted == old(granted) && dispatching == old(dispatching)
    }

    /** The claim of the candidate its query picked. An epoch that would leave 32 bits is not handed out:
        the model's stand-in for 2^32 claims of one item. */
    method ClaimWorkItem(candidate: ItemId, worker: WorkerId) returns (claimed: Option<Item>)
      requires Valid()
      modifies this
      ensures Valid()
      ensures claimed.Some? <==>
                candidate in old(items) && old(items[candidate]).status.Queued? && old(items[candidate]).epoch + 1 < EPOCHS
      ensures claimed.None? ==> DidNothing()
      ensures claimed.Some? ==>
                && Did(ClaimItem(candidate, worker)) && OnlyItems()
                && items == old(items)[candidate := claimed.value]
                && claimed.value == Leased(old(State()), candidate, worker)
                && HeldUnder(State(), candidate, claimed.value.fence)
                && claimed.value.worker == Some(worker)
                && claimed.value.heldSince == |LogOf(State(), claimed.value.run)|
    {
      if candidate !in items || !items[candidate].status.Queued? || items[candidate].epoch + 1 >= EPOCHS {
        return None;
      }
      ghost var before := State();
      var it := items[candidate];
      var epoch := it.epoch + 1;
      var log := GetEvents(it.run);
      var mine := it.(status := Claimed, worker := Some(worker), epoch := epoch, fence := Mint(term, epoch),
                      claimedAt := |log|, heldSince := |log|);
      PutItem(candidate, mine);
      File(before, ClaimItem(candidate, worker));
      return Some(mine);
    }

    method FailWorkItem(i: ItemId)
      requires Valid() && i in items && !LiveRun(State(), items[i].run)
      modifies this
      ensures Valid() && Did(FailItem(i)) && OnlyItems()
      ensures items == old(items)[i := old(items)[i].(status := ItemStatus.Failed, worker := None)]
    {
      ghost var before := State();
      PutItem(i, items[i].(status := ItemStatus.Failed, worker := None));
      File(before, FailItem(i));
    }

    /** The terminal check, the fenced settle and the event, in one write. */
    method CommitTurnUnlessTerminal(i: ItemId, fence: int, kind: EventKind, r: RunId, now: Time)
      returns (result: TurnCommit)
      requires Valid()
      requires kind.NodeCompleted? || (kind.NodeFailed? && !kind.retryable)
      requires i in items && items[i].run == r && items[i].node == kind.node && r in runs
      requires kind.NodeCompleted? ==> fence > 0 && WasCompletable(State(), i)
      modifies this
      ensures Valid()
      ensures result.FenceLost? <==> !HeldUnder(old(State()), i, fence)
      ensures result.Committed? <==> HeldUnder(old(State()), i, fence) && !Terminal(old(State()), r)
      ensures result.FenceLost? ==> DidNothing()
      ensures !result.FenceLost? ==>
                && Did(CommitTurn(i, fence, r, kind.node, if kind.NodeCompleted? then Done(kind.output) else RunStore.Refused, now))
                && i in items && items[i].status.Settled()
      ensures result.Committed? ==>
                && r in old(runs) && r in runs && runs[r] == old(runs[r]).(log := old(runs[r]).log + [Event(kind, now)])
                && (items[i].status.Completed? <==> kind.NodeCompleted?)
      ensures result.ExecutionTerminal? ==> Terminal(State(), r) && runs[r].status == result.status
    {
      ghost var before := State();
      ghost var outcome: RunStore.Outcome := if kind.NodeCompleted? then Done(kind.output) else RunStore.Refused;
      ghost var a := CommitTurn(i, fence, r, kind.node, outcome, now);
      var held := items[i].status.Claimed? && items[i].fence == fence;
      if runs[r].status.IsTerminal() {
        if !held {
          return FenceLost;
        }
        PutItem(i, items[i].(status := ItemStatus.Failed, worker := None));
        File(before, a);
        return TurnCommit.ExecutionTerminal(runs[r].status);
      }
      if !held {
        return FenceLost;
      }
      if kind.NodeCompleted? {
        PutItem(i, items[i].(status := ItemStatus.Completed));
      } else {
        PutItem(i, items[i].(status := ItemStatus.Failed, worker := None));
      }
      PutEvent(r, kind, now);
      File(before, a);
      return Committed;
    }

    /** `complete_work_item_fenced` for a held node. */
    method SettleHeldItem(i: ItemId, fence: int) returns (settled: bool)
      requires Valid() && (HeldUnder(State(), i, fence) ==> SeenWithheld(State(), i))
      modifies this
      ensures Valid() && (settled <==> HeldUnder(old(State()), i, fence))
      ensures if settled then Did(SettleHeld(i, fence)) else DidNothing()
      ensures !HeldUnder(State(), i, fence)
    {
      settled := i in items && items[i].status.Claimed? && items[i].fence == fence;
      if settled {
        ghost var before := State();
        PutItem(i, items[i].(status := ItemStatus.Completed));
        File(before, SettleHeld(i, fence));
      }
    }

    /** The same call for a completion whose item could not be read. */
    method SettleUnreadItem(i: ItemId, fence: int) returns (settled: bool)
      requires Valid()
      modifies this
      ensures Valid() && (settled <==> HeldUnder(old(State()), i, fence))
      ensures if settled then Did(SettleBlind(i, fence)) else DidNothing()
    {
      settled := i in items && items[i].status.Claimed? && items[i].fence == fence;
      if settled {
        ghost var before := State();
        PutItem(i, items[i].(status := ItemStatus.Completed));
        File(before, SettleBlind(i, fence));
      }
    }

    /** Renew the lease held under `fence`, or take back one that only expired: nobody was handed the item
        since, which its epoch shows. */
    method HeartbeatLease(i: ItemId, worker: WorkerId, fence: int) returns (renewal: Option<LeaseRenewal>)
      requires Valid()
      modifies this
      ensures Valid()
      ensures renewal.None? || !renewal.value.reattached ==> DidNothing()
      ensures renewal.Some? ==>
                HeldUnder(State(), i, renewal.value.fence) && items[i].worker == Some(worker)
      ensures renewal.Some? && !renewal.value.reattached ==> renewal.value.fence == fence
      ensures renewal.Some? && renewal.value.reattached ==>
                && CanReattach(old(State()), i, worker, fence)
                && Did(Reattach(i, worker, fence))
                && items[i].epoch == FenceEpoch(fence) + 2
      ensures renewal.None? ==>
                && !(HeldUnder(State(), i, fence) && items[i].worker == Some(worker))
                && (CanReattach(State(), i, worker, fence) ==> items[i].epoch + 1 >= EPOCHS)
    {
      if i !in items {
        return None;
      }
      var it := items[i];
      if it.status.Claimed? && it.worker == Some(worker) && it.fence == fence {
        return Some(LeaseRenewal(fence, false));
      }
      var lost := && it.status.Queued? && it.worker.None? && it.lastLease == Some((worker, fence))
                  && it.epoch == EpochAfterExpiryOf(fence);
      if !lost || it.epoch + 1 >= EPOCHS {
        return None;
      }
      ghost var before := State();
      var epoch := it.epoch + 1;
      var minted := Mint(term, epoch);
      var log := GetEvents(it.run);
      PutItem(i, it.(status := Claimed, worker := Some(worker), epoch := epoch, fence := minted,
                     attempt := if it.attempt > 0 then it.attempt - 1 else 0, lastLease := None, claimedAt := |log|));
      if (i, fence) in granted {
        granted := granted + {(i, minted)};
      }
      File(before, Reattach(i, worker, fence));
      return Some(LeaseRenewal(minted, true));
    }

    /** The payload and the fence leave the engine. */
    method HandOver(i: ItemId, fence: int)
      requires Valid() && MayRelease(State(), i, fence)
      modifies this
      ensures Valid() && Did(ReleaseItem(i, fence))
      ensures granted == old(granted) + {(i, fence)} && items == old(items) && runs == old(runs)
    {
      ghost var before := State();
      granted := granted + {(i, fence)};
      File(before, ReleaseItem(i, fence));
    }

    /** An unconditional append, for the two events the guard records. */
    method AppendRequest(i: ItemId, request: Request, now: Time)
      requires Valid() && Legal(config, State(), RaiseRequest(i, request, now))
      modifies this
      ensures Valid() && Did(RaiseRequest(i, request, now)) && items == old(items)
      ensures var r := items[i].run;
              && r in old(runs) && r in runs
              && runs[r].log == old(runs)[r].log + [Event(ToolApprovalRequired(items[i].node, request), now)]
    {
      ghost var before := State();
      PutEvent(items[i].run, ToolApprovalRequired(items[i].node, request), now);
      File(before, RaiseRequest(i, request, now));
    }

    method AppendViolation(r: RunId, n: NodeId, now: Time)
      requires Valid()
      modifies this
      ensures Valid() && Did(RecordViolation(r, n, now)) && items == old(items)
      ensures r in old(runs) ==> r in runs && runs[r].log == old(runs)[r].log + [Event(PolicyViolation(n), now)]
    {
      ghost var before := State();
      PutEvent(r, PolicyViolation(n), now);
      File(before, RecordViolation(r, n, now));
    }

    /** `append_event_if` for a decision: the run is live and the request is still open, or nothing. */
    method AppendDecision(r: RunId, ruling: Ruling, decision: Decision, principal: Option<Principal>, now: Time)
      returns (result: ConditionalAppend)
      requires Valid() && Legal(config, State(), RecordDecision(r, ruling, decision, principal, now))
      modifies this
      ensures Valid()
      ensures result.NotFound? <==> r !in old(runs)
      ensures result.RunEnded? <==> Terminal(old(State()), r)
      ensures result.Appended? <==>
                LiveRun(old(State()), r) && StillOpen(LogOf(old(State()), r), ruling.node, ruling.answered, now)
      ensures if result.Appended? then Did(RecordDecision(r, ruling, decision, principal, now)) else DidNothing()
      ensures result.Appended? ==>
                && r in runs && result.sequence == |runs[r].log|
                && runs[r].log == LogOf(old(State()), r) + [Event(DecisionEvent(ruling, decision, principal), now)]
    {
      if r !in runs {
        return NotFound;
      }
      if runs[r].status.IsTerminal() {
        return RunEnded(runs[r].status);
      }
      if !StillOpen(runs[r].log, ruling.node, ruling.answered, now) {
        return ConditionalAppend.Refused;
      }
      ghost var before := State();
      PutEvent(r, DecisionEvent(ruling, decision, principal), now);
      File(before, RecordDecision(r, ruling, decision, principal, now));
      return Appended(|runs[r].log|);
    }

    /** `append_event_if` for an expiry, with its own weaker condition. */
    method AppendExpiry(r: RunId, n: NodeId, answered: nat, sweptAt: Time, now: Time)
      returns (result: ConditionalAppend)
      requires Valid() && Legal(config, State(), RecordExpiry(r, n, answered, sweptAt, now))
      modifies this
      ensures Valid()
      ensures result.Appended? <==>
                LiveRun(old(State()), r) && StillPending(LogOf(old(State()), r), n, answered)
      ensures if result.Appended? then Did(RecordExpiry(r, n, answered, sweptAt, now)) else DidNothing()
      ensures result.Appended? ==>
                r in runs && runs[r].log == LogOf(old(State()), r) + [Event(ApprovalExpired(n, answered), now)]
    {
      if r !in runs {
        return NotFound;
      }
      if runs[r].status.IsTerminal() {
        return RunEnded(runs[r].status);
      }
      if !StillPending(runs[r].log, n, answered) {
        return ConditionalAppend.Refused;
      }
      ghost var before := State();
      PutEvent(r, ApprovalExpired(n, answered), now);
      File(before, RecordExpiry(r, n, answered, sweptAt, now));
      return Appended(|runs[r].log|);
    }

    method AppendEscalation(r: RunId, n: NodeId, answered: nat, now: Time) returns (result: ConditionalAppend)
      requires Valid()
      modifies this
      ensures Valid()
      ensures if result.Appended? then Did(RecordEscalation(r, n, answered, now)) else DidNothing()
      ensures result.Appended? <==>
                && LiveRun(old(State()), r) && StillPending(LogOf(old(State()), r), n, answered)
                && forall i | 0 <= i < |LogOf(old(State()), r)| ::
                     LogOf(old(State()), r)[i].kind != ApprovalEscalated(n, answered)
      ensures result.Appended? ==>
                r in runs && runs[r].log == LogOf(old(State()), r) + [Event(ApprovalEscalated(n, answered), now)]
    {
      if r !in runs {
        return NotFound;
      }
      if runs[r].status.IsTerminal() {
        return RunEnded(runs[r].status);
      }
      if !StillPending(runs[r].log, n, answered) || !NotEscalated(runs[r].log, n, answered) {
        return ConditionalAppend.Refused;
      }
      ghost var before := State();
      PutEvent(r, ApprovalEscalated(n, answered), now);
      File(before, RecordEscalation(r, n, answered, now));
      return Appended(|runs[r].log|);
    }

    /** The terminal check, the status and the event, in one write. */
    method FinishExecution(r: RunId, status: WorkflowStatus, now: Time) returns (result: Finish)
      requires Valid() && status.IsTerminal()
      modifies this
      ensures Valid()
      ensures result.NoSuchRun? <==> r !in old(runs)
      ensures result.AlreadyTerminal? <==> Terminal(old(State()), r)
      ensures if result.Finished? then Did(Action.FinishExecution(r, status, now)) else DidNothing()
      ensures result.Finished? ==>
                && r in old(runs) && r in runs
                && runs[r].workflow == old(runs[r]).workflow && runs[r].status == status
                && runs[r].log == old(runs[r]).log + [Event(if status == WorkflowStatus.Failed then WorkflowFailed
                                                            else if status == Cancelled then WorkflowCancelled
                                                            else WorkflowCompleted, now)]
      ensures result.AlreadyTerminal? ==> result.status == runs[r].status
    {
      if r !in runs {
        return NoSuchRun;
      }
      if runs[r].status.IsTerminal() {
        return AlreadyTerminal(runs[r].status);
      }
      ghost var before := State();
      runs := runs[r := runs[r].(status := status)];
      PutEvent(r, EndEvent(status), now);
      File(before, Action.FinishExecution(r, status, now));
      return Finished;
    }
  }
}
