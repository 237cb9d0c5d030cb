/**
 What every reachable run log satisfies, whoever interleaves with whom: nothing is recorded after the
 run ended, every request gets at most one outcome, every decision still meets the checks that were
 made on an earlier read, and a gated node's result is preceded by an approval of its occurrence.
 */
module RunSafety {
  import opened Wrappers
  import opened Workflow
  import opened EventLog
  import opened Approvals
  import opened Guard
  import opened RunStore
  import opened StoreHistory
  import opened LogEffects

  // ---------------------------------------------------------------------------
  // Log order
  // ---------------------------------------------------------------------------

  /** Events that are only ever written to a run that is still live. */
  predicate NeedsLiveRun(kind: EventKind) {
    EndsRun(kind) || kind.NodeCompleted? || kind.ApprovalReceived? || kind.ApprovalExpired? || kind.ApprovalEscalated?
  }

  predicate HasEnd(log: Log) {
    exists j | 0 <= j < |log| :: EndsRun(log[j].kind)
  }

  predicate Ordered(run: Run) {
    && |run.log| > 0
    && run.log[0].kind.WorkflowStarted?
    && (run.status.IsTerminal() <==> HasEnd(run.log))
    && (forall j, k | 0 <= j < k < |run.log| :: EndsRun(run.log[j].kind) ==> !NeedsLiveRun(run.log[k].kind))
  }

  lemma OrderedAppend(run: Run, e: Event, status: WorkflowStatus)
    requires Ordered(run)
    requires NeedsLiveRun(e.kind) ==> !run.status.IsTerminal()
    requires if EndsRun(e.kind) then status.IsTerminal() else status == run.status
    ensures Ordered(run.(log := run.log + [e], status := status))
  {
    var log := run.log + [e];
    assert forall j | 0 <= j < |run.log| :: log[j] == run.log[j];
    assert log[|run.log|] == e;
    if EndsRun(e.kind) {
      assert EndsRun(log[|run.log|].kind);
    }
    if HasEnd(run.log) {
      var j :| 0 <= j < |run.log| && EndsRun(run.log[j].kind);
      assert EndsRun(log[j].kind);
    }
  }

  // ---------------------------------------------------------------------------
  // Decisions
  // ---------------------------------------------------------------------------

  predicate Resolves(kind: EventKind, n: NodeId, answered: nat) {
    || (kind.ApprovalReceived? && kind.node == n && kind.answered == answered)
    || (kind.ApprovalExpired? && kind.node == n && kind.answered == answered)
  }

  /** The entry at `j` was rightly recorded, given everything before it. */
  predicate Sound(cfg: Config, log: Log, j: nat)
    requires j < |log|
  {
    match log[j].kind
    case ApprovalReceived(n, decision, principal, digest, answered) =>
      var status := NodeApprovalStatus(log[..j], n);
      && status.Pending? && status.sequence == answered
      && !status.request.Expired(log[j].at)
      && digest == (if decision.Approve? then status.request.actionDigest else None)
      && (!cfg.devMode ==> principal.Some?)
      && (decision.Approve? ==> DutyError(cfg, RunInitiator(log), principal).None?)
    case ApprovalExpired(n, answered) =>
      var status := NodeApprovalStatus(log[..j], n);
      status.Pending? && status.sequence == answered && !status.request.expiresAt.Unset?
    case ApprovalEscalated(n, answered) =>
      var status := NodeApprovalStatus(log[..j], n);
      && status.Pending? && status.sequence == answered
      && NotEscalated(log[..j], n, answered)
    case _ => true
  }

  predicate AllSound(cfg: Config, log: Log) {
    forall j | 0 <= j < |log| :: Sound(cfg, log, j)
  }

  lemma SoundAppend(cfg: Config, log: Log, e: Event)
    requires |log| > 0 && log[0].kind.WorkflowStarted?
    requires AllSound(cfg, log)
    requires Sound(cfg, log + [e], |log|)
    ensures AllSound(cfg, log + [e])
  {
    var longer := log + [e];
    forall j | 0 <= j < |longer| ensures Sound(cfg, longer, j) {
      if j < |log| {
        assert longer[..j] == log[..j] && longer[j] == log[j];
        assert Sound(cfg, log, j);
      }
    }
  }

  /** A request reviewed on an earlier read and still pending now is the same request. */
  lemma SameRequest(log: Log, k: nat, n: NodeId)
    requires k <= |log|
    requires ApprovalFold(log[..k], n).Pending? && ApprovalFold(log, n).Pending?
    requires ApprovalFold(log[..k], n).sequence == ApprovalFold(log, n).sequence
    ensures ApprovalFold(log[..k], n) == ApprovalFold(log, n)
  {
    PendingNamesItsRequest(log[..k], n);
    PendingNamesItsRequest(log, n);
  }

  lemma DecisionIsSound(cfg: Config, log: Log, ruling: Ruling, decision: Decision, principal: Option<Principal>,
                        k: nat, now: Time)
    requires |log| > 0 && log[0].kind.WorkflowStarted?
    requires k <= |log| && Reviewed(cfg, log[..k], ruling, decision, principal)
    requires StillOpen(log, ruling.node, ruling.answered, now)
    ensures Sound(cfg, log + [Event(DecisionEvent(ruling, decision, principal), now)], |log|)
  {
    var longer := log + [Event(DecisionEvent(ruling, decision, principal), now)];
    assert longer[..|log|] == log;
    SameRequest(log, k, ruling.node);
    PendingNamesItsRequest(log[..k], ruling.node);
    assert log[..k][0] == log[0];
    assert RunInitiator(longer) == RunInitiator(log) == RunInitiator(log[..k]);
  }

  lemma ExpiryIsSound(cfg: Config, log: Log, n: NodeId, answered: nat, k: nat, sweptAt: Time, now: Time)
    requires k <= |log|
    requires var status := ApprovalFold(log[..k], n);
             status.Pending? && status.sequence == answered && status.request.Expired(sweptAt)
    requires StillPending(log, n, answered)
    ensures Sound(cfg, log + [Event(ApprovalExpired(n, answered), now)], |log|)
  {
    assert (log + [Event(ApprovalExpired(n, answered), now)])[..|log|] == log;
    SameRequest(log, k, n);
  }

  /** Each request receives at most one outcome: two entries that name the same request of the same node
      are the same entry. */
  lemma OneOutcomePerRequest(cfg: Config, log: Log, j: nat, k: nat, n: NodeId, answered: nat)
    requires AllSound(cfg, log)
    requires j < |log| && k < |log|
    requires Resolves(log[j].kind, n, answered) && Resolves(log[k].kind, n, answered)
    ensures j == k
  {
    if j > k {
      OneOutcomePerRequest(cfg, log, k, j, n, answered);
    } else if j < k {
      assert Sound(cfg, log, j) && Sound(cfg, log, k);
      PendingNamesItsRequest(log[..j], n);
      assert log[..j + 1][..j] == log[..j];
      assert !ApprovalFold(log[..j + 1], n).Pending?;
      assert log[..k][..j + 1] == log[..j + 1];
      PendingSinceRequest(log[..k], n, j + 1);
    }
  }

  /** And it is escalated at most once: an escalation is the first of its request. */
  lemma OneEscalationPerRequest(cfg: Config, log: Log, k: nat, n: NodeId, answered: nat)
    requires AllSound(cfg, log)
    requires k < |log| && log[k].kind == ApprovalEscalated(n, answered)
    ensures forall j | 0 <= j < k :: log[j].kind != ApprovalEscalated(n, answered)
  {
    assert Sound(cfg, log, k);
    assert forall j | 0 <= j < k :: log[..k][j] == log[j];
  }

  /** An outcome names a request that is in the log, before it, for its node; an approval landed inside
      that request's deadline, carries exactly its digest, and does not come from the run's initiator
      unless the install allows it. */
  lemma ApprovalAnswersItsRequest(cfg: Config, log: Log, j: nat)
    requires AllSound(cfg, log)
    requires j < |log| && log[j].kind.ApprovalReceived? && log[j].kind.decision.Approve?
    ensures var kind := log[j].kind;
            && 0 < kind.answered <= j
            && log[kind.answered - 1].kind.ToolApprovalRequired?
            && log[kind.answered - 1].kind.node == kind.node
            && var request := log[kind.answered - 1].kind.request;
            && kind.approvedDigest == request.actionDigest
            && (request.expiresAt.At? ==> log[j].at < request.expiresAt.at)
            && !request.expiresAt.Unreadable?
            && (!cfg.devMode ==> kind.principal.Some?)
            && (!cfg.allowSelfApproval && kind.principal.Some? ==> RunInitiator(log) != kind.principal)
            && (!cfg.allowSelfApproval && !cfg.devMode ==> RunInitiator(log).Some?)
            && (forall i | kind.answered <= i < j :: !Resolves(log[i].kind, kind.node, kind.answered))
  {
    assert Sound(cfg, log, j);
    var kind := log[j].kind;
    PendingNamesItsRequest(log[..j], kind.node);
    forall i | kind.answered <= i < j ensures !Resolves(log[i].kind, kind.node, kind.answered) {
      if Resolves(log[i].kind, kind.node, kind.answered) {
        OneOutcomePerRequest(cfg, log, i, j, kind.node, kind.answered);
      }
    }
  }

  // ---------------------------------------------------------------------------
  // Gated nodes
  // ---------------------------------------------------------------------------

  predicate Gated(s: Store, r: RunId, n: NodeId) {
    && r in s.runs && s.runs[r].workflow in s.workflows
    && var nodes := s.workflows[s.runs[r].workflow].nodes;
    && n in nodes && nodes[n].rule == Some(Gate)
  }

  /** The run's registered workflow forbids the node, whatever the tenant says. */
  predicate Denied(s: Store, r: RunId, n: NodeId) {
    && r in s.runs && s.runs[r].workflow in s.workflows
    && var nodes := s.workflows[s.runs[r].workflow].nodes;
    && n in nodes && nodes[n].rule == Some(Deny)
  }

  /** The approval at `j` is of node `n` of run `r`, as the run's registered workflow defines it. */
  predicate ApprovesNode(s: Store, r: RunId, log: Log, j: nat, n: NodeId)
    requires j < |log|
  {
    && Gated(s, r, n)
    && log[j].kind.ApprovalReceived? && log[j].kind.node == n && log[j].kind.decision.Approve?
    && log[j].kind.approvedDigest.Some?
    && var digest := log[j].kind.approvedDigest.value;
    && digest.ActionDigest? && digest.run == r && digest.node == n
    && digest.definition == s.workflows[s.runs[r].workflow].nodes[n].definition
  }

  /** At `k` the log approves that occurrence of `n` which a count of completions made at `m` named. */
  predicate Covers(s: Store, r: RunId, log: Log, n: NodeId, k: nat, m: nat) {
    && k < m <= |log|
    && ApprovesNode(s, r, log, k, n)
    && log[k].kind.approvedDigest.value.step == Completions(log[..m], n)
  }

  /** The log holds what the next result of `n` needs: an approval, and a later moment whose count of
      completions it was given for. */
  predicate Covered(s: Store, r: RunId, log: Log, n: NodeId) {
    exists k, m | 0 <= k < m <= |log| :: Covers(s, r, log, n, k, m)
  }

  predicate RequestBinds(s: Store, r: RunId, kind: EventKind) {
    kind.ToolApprovalRequired? && Gated(s, r, kind.node) ==>
      && kind.request.actionDigest.Some?
      && var digest := kind.request.actionDigest.value;
      && digest.ActionDigest? && digest.run == r && digest.node == kind.node
      && digest.definition == s.workflows[s.runs[r].workflow].nodes[kind.node].definition
      && kind.request.step == Some(digest.step)
  }

  /** Every request recorded for a gated node binds the run, the node, its registered definition and the
      occurrence, and every result of a gated node comes after an approval of it for the occurrence the node
      was at, at some moment between the approval and the result. No result is of a node its workflow denies. */
  predicate GatesHold(s: Store, r: RunId)
    requires r in s.runs
  {
    var log := s.runs[r].log;
    && (forall j | 0 <= j < |log| :: RequestBinds(s, r, log[j].kind))
    && (forall j | 0 <= j < |log| && log[j].kind.NodeCompleted? && Gated(s, r, log[j].kind.node) ::
          Covered(s, r, log[..j], log[j].kind.node))
    && (forall j | 0 <= j < |log| && log[j].kind.NodeCompleted? :: !Denied(s, r, log[j].kind.node))
  }

  predicate Safe(cfg: Config, s: Store, r: RunId)
    requires r in s.runs
  {
    Ordered(s.runs[r]) && AllSound(cfg, s.runs[r].log) && GatesHold(s, r)
  }

  predicate AllSafe(cfg: Config, s: Store) {
    forall r | r in s.runs :: Safe(cfg, s, r)
  }

  lemma GatedIsStable(s: Store, t: Store, r: RunId, n: NodeId)
    requires Extends(s, t) && r in s.runs && s.runs[r].workflow in s.workflows
    ensures Gated(t, r, n) <==> Gated(s, r, n)
    ensures Denied(t, r, n) <==> Denied(s, r, n)
    ensures Gated(s, r, n) ==> t.workflows[t.runs[r].workflow] == s.workflows[s.runs[r].workflow]
  {
    assert RunExtends(s.runs[r], t.runs[r]);
  }

  /** In a safe log the approval of a gated node carries its request's digest, which binds the run, the node,
      the registered definition and the occurrence the request names. */
  lemma ApprovalBinds(cfg: Config, s: Store, r: RunId, n: NodeId, k: nat, j: nat, request: Request)
    requires r in s.runs && Safe(cfg, s, r) && Gated(s, r, n)
    requires k <= |s.runs[r].log| && Approves(s.runs[r].log[..k], j, n, request)
    ensures ApprovesNode(s, r, s.runs[r].log, j, n)
    ensures s.runs[r].log[j].kind.approvedDigest == request.actionDigest
    ensures request.step == Some(request.actionDigest.value.step)
  {
    var log := s.runs[r].log;
    assert log[..k][j] == log[j] && log[..k][..j] == log[..j];
    assert Sound(cfg, log, j);
    PendingNamesItsRequest(log[..j], n);
    assert RequestBinds(s, r, log[log[j].kind.answered - 1].kind);
  }

  /** A result of a gated node is committed only after its approval, which binds this node and the occurrence
      the completion gate counted. */
  lemma CompletableNeedsItsApproval(cfg: Config, s: Store, i: ItemId)
    requires WellFormed(s) && WasCompletable(s, i)
    requires Safe(cfg, s, s.items[i].run) && Gated(s, s.items[i].run, s.items[i].node)
    ensures Covered(s, s.items[i].run, s.runs[s.items[i].run].log, s.items[i].node)
  {
    var r, n := s.items[i].run, s.items[i].node;
    var log := s.runs[r].log;
    var tenant: Rule, k, m :| 0 <= k <= m <= |LogOf(s, r)| && Completable(s, i, tenant, k, m);
    var step := Completions(log[..m], n);
    RecordingNeedsAnApproval(DefOf(s, i).value, tenant, log[..k], r, n, s.items[i].payload, step);
    var j: nat, request :| Approves(log[..k], j, n, request) && (request.step.Some? ==> request.step == Some(step));
    ApprovalBinds(cfg, s, r, n, k, j, request);
    assert Covers(s, r, log, n, j, m);
  }

  /** What the completion gate leaves open. When it passes on a read of a safe log, the approval it rests on
      binds the item's run, node, registered definition and occurrence; and the payload exactly if the digest
      of the answered request carries the item's, which is what the claim gate would have asked of this very
      read. */
  lemma CompletionCoversThePayloadIff(cfg: Config, s: Store, i: ItemId, tenant: Rule, k: nat, m: nat, deadline: Deadline)
    requires WellFormed(s) && DefOf(s, i).Some? && Completable(s, i, tenant, k, m)
    requires Safe(cfg, s, s.items[i].run) && Gated(s, s.items[i].run, s.items[i].node)
    ensures var it := s.items[i];
            var log := s.runs[it.run].log;
            var step := Completions(log[..m], it.node);
            var definition := s.workflows[s.runs[it.run].workflow].nodes[it.node].definition;
            var answered := AnsweredRequest(log[..k], it.node);
            && answered.Some? && answered.value.1.actionDigest.Some?
            && var digest := answered.value.1.actionDigest.value;
            && digest.ActionDigest?
            && digest == ActionDigest(it.run, step, it.node, definition, digest.payload)
            && NodeApprovalStatus(log[..k], it.node).Approved?
            && NodeApprovalStatus(log[..k], it.node).approvedDigest == Some(digest)
            && (GuardFire(DefOf(s, i).value, tenant, log[..k], it.run, it.node, it.payload, step, deadline).Allow?
                <==> digest.payload == it.payload)
  {
    var it := s.items[i];
    var log := s.runs[it.run].log;
    var step := Completions(log[..m], it.node);
    RecordingNeedsAnApproval(DefOf(s, i).value, tenant, log[..k], it.run, it.node, it.payload, step);
    var j: nat, request :|
      && Approves(log[..k], j, it.node, request)
      && AnsweredRequest(log[..k], it.node) == Some((ApprovalFold(log[..k][..j], it.node).sequence, request))
      && NodeApprovalStatus(log[..k], it.node) == Approved(j + 1, log[..k][j].kind.approvedDigest)
      && (request.step.Some? ==> request.step == Some(step));
    ApprovalBinds(cfg, s, it.run, it.node, k, j, request);
  }

  predicate Completes(kind: EventKind, n: NodeId) {
    kind.NodeCompleted? && kind.node == n
  }

  /** An approval that covered a count made at `m1` covers one made at `m2` exactly when no result of the node
      was recorded in between: recording a result is what uses an approval up. */
  lemma ApprovalLastsIff(s: Store, r: RunId, log: Log, n: NodeId, k: nat, m1: nat, m2: nat)
    requires Covers(s, r, log, n, k, m1) && m1 <= m2 <= |log|
    ensures Covers(s, r, log, n, k, m2) <==> forall j | m1 <= j < m2 :: !Completes(log[j].kind, n)
  {
    if j :| m1 <= j < m2 && Completes(log[j].kind, n) {
      CountMoves(log, n, m1, j, m2);
    } else {
      CountStays(log, n, m1, m2);
    }
  }

  /** So one approval serves two results of a node only if the count for the second was read before the first
      was recorded: two leases of the node, both past the gate before either commits. */
  lemma SharedApprovalIsARace(s: Store, r: RunId, n: NodeId, k: nat, j1: nat, m1: nat, j2: nat, m2: nat)
    requires r in s.runs && j1 < j2 < |s.runs[r].log|
    requires var log := s.runs[r].log;
             && Completes(log[j1].kind, n) && Completes(log[j2].kind, n)
             && m1 <= j1 && Covers(s, r, log, n, k, m1) && m2 <= j2 && Covers(s, r, log, n, k, m2)
    ensures m2 <= j1
  {
    if m1 <= m2 {
      ApprovalLastsIff(s, r, s.runs[r].log, n, k, m1, m2);
    }
  }

  lemma CoverIsStable(s: Store, t: Store, r: RunId, log: Log, n: NodeId)
    requires r in s.runs && r in t.runs && Covered(s, r, log, n)
    requires Gated(t, r, n)
    requires t.workflows[t.runs[r].workflow] == s.workflows[s.runs[r].workflow]
    ensures Covered(t, r, log, n)
  {
    var k, m :| 0 <= k < m <= |log| && Covers(s, r, log, n, k, m);
    assert Covers(t, r, log, n, k, m);
  }

  lemma GatesHoldAppend(s: Store, t: Store, r: RunId, e: Event)
    requires Extends(s, t) && r in s.runs && s.runs[r].workflow in s.workflows && GatesHold(s, r)
    requires t.runs[r].log == s.runs[r].log + [e]
    requires RequestBinds(s, r, e.kind)
    requires e.kind.NodeCompleted? && Gated(s, r, e.kind.node) ==> Covered(s, r, s.runs[r].log, e.kind.node)
    requires e.kind.NodeCompleted? ==> !Denied(s, r, e.kind.node)
    ensures GatesHold(t, r)
  {
    var log, longer := s.runs[r].log, t.runs[r].log;
    forall j | 0 <= j < |longer| && longer[j].kind.NodeCompleted? ensures !Denied(t, r, longer[j].kind.node) {
      GatedIsStable(s, t, r, longer[j].kind.node);
      if j < |log| { assert longer[j] == log[j]; }
    }
    forall j | 0 <= j < |longer| ensures RequestBinds(t, r, longer[j].kind) {
      if longer[j].kind.ToolApprovalRequired? { GatedIsStable(s, t, r, longer[j].kind.node); }
      if j < |log| { assert longer[j] == log[j]; }
    }
    forall j | 0 <= j < |longer| && longer[j].kind.NodeCompleted? && Gated(t, r, longer[j].kind.node)
      ensures Covered(t, r, longer[..j], longer[j].kind.node)
    {
      var n := longer[j].kind.node;
      GatedIsStable(s, t, r, n);
      assert longer[..j] == log[..j];
      if j < |log| { assert longer[j] == log[j]; } else { assert log[..j] == log; }
      CoverIsStable(s, t, r, log[..j], n);
    }
  }

  lemma GatesHoldUnchanged(s: Store, t: Store, r: RunId)
    requires Extends(s, t) && r in s.runs && s.runs[r].workflow in s.workflows && GatesHold(s, r)
    requires t.runs[r].log == s.runs[r].log
    ensures GatesHold(t, r)
  {
    var log := s.runs[r].log;
    forall j | 0 <= j < |log| ensures RequestBinds(t, r, log[j].kind) {
      if log[j].kind.ToolApprovalRequired? { GatedIsStable(s, t, r, log[j].kind.node); }
    }
    forall j | 0 <= j < |log| && log[j].kind.NodeCompleted? ensures !Denied(t, r, log[j].kind.node) {
      GatedIsStable(s, t, r, log[j].kind.node);
    }
    forall j | 0 <= j < |log| && log[j].kind.NodeCompleted? && Gated(t, r, log[j].kind.node)
      ensures Covered(t, r, log[..j], log[j].kind.node)
    {
      GatedIsStable(s, t, r, log[j].kind.node);
      CoverIsStable(s, t, r, log[..j], log[j].kind.node);
    }
  }

  // ---------------------------------------------------------------------------
  // One step
  // ---------------------------------------------------------------------------

  /** One appended event keeps the run safe: what each kind of event must bring. */
  predicate Admissible(cfg: Config, s: Store, r: RunId, e: Event, status: WorkflowStatus)
    requires r in s.runs
  {
    var run := s.runs[r];
    && (NeedsLiveRun(e.kind) ==> !run.status.IsTerminal())
    && (if EndsRun(e.kind) then status.IsTerminal() else status == run.status)
    && Sound(cfg, run.log + [e], |run.log|)
    && RequestBinds(s, r, e.kind)
    && (e.kind.NodeCompleted? && Gated(s, r, e.kind.node) ==> Covered(s, r, run.log, e.kind.node))
    && (e.kind.NodeCompleted? ==> !Denied(s, r, e.kind.node))
  }

  lemma SafeAppend(cfg: Config, s: Store, t: Store, r: RunId, e: Event)
    requires Extends(s, t) && r in s.runs && s.runs[r].workflow in s.workflows && Safe(cfg, s, r)
    requires Admissible(cfg, s, r, e, t.runs[r].status)
    requires t.runs[r] == s.runs[r].(log := s.runs[r].log + [e], status := t.runs[r].status)
    ensures Safe(cfg, t, r)
  {
    OrderedAppend(s.runs[r], e, t.runs[r].status);
    SoundAppend(cfg, s.runs[r].log, e);
    GatesHoldAppend(s, t, r, e);
  }

  lemma RaisedRequestBinds(cfg: Config, s: Store, a: Action)
    requires WellFormed(s) && a.RaiseRequest? && Legal(cfg, s, a)
    ensures RequestBinds(s, s.items[a.item].run, ToolApprovalRequired(s.items[a.item].node, a.request))
  {
    var r, n := s.items[a.item].run, s.items[a.item].node;
    var d := Deadline(a.request.expiresAt, a.request.escalateAt);
    var tenant: Rule, k, m :| 0 <= k <= m <= |LogOf(s, r)| && Fired(s, a.item, tenant, k, m, Held(Some(a.request)), d);
    assert DefOf(s, a.item).Some?;
  }

  lemma CompletableIsNotDenied(s: Store, i: ItemId)
    requires WasCompletable(s, i)
    ensures !Denied(s, s.items[i].run, s.items[i].node)
  {
    var it := s.items[i];
    var tenant: Rule, k, m :| 0 <= k <= m <= |LogOf(s, it.run)| && Completable(s, i, tenant, k, m);
    var log := s.runs[it.run].log;
    CompletesIff(DefOf(s, i).value, tenant, log[..k], it.run, it.node, it.payload, Completions(log[..m], it.node));
  }

  lemma CommitIsAdmissible(cfg: Config, s: Store, a: Action)
    requires WellFormed(s) && AllSafe(cfg, s) && Legal(cfg, s, a) && a.CommitTurn? && Commits(s, a)
    ensures a.run in s.runs
    ensures Admissible(cfg, s, a.run, Event(OutcomeEvent(a.node, a.outcome), a.now), s.runs[a.run].status)
  {
    if a.outcome.Done? {
      CompletableIsNotDenied(s, a.item);
    }
    if a.outcome.Done? && Gated(s, a.run, a.node) {
      assert Safe(cfg, s, a.run);
      CompletableNeedsItsApproval(cfg, s, a.item);
    }
  }

  lemma ResolutionIsAdmissible(cfg: Config, s: Store, a: Action)
    requires WellFormed(s) && AllSafe(cfg, s) && Legal(cfg, s, a)
    requires a.RecordDecision? || a.RecordExpiry? || a.RecordEscalation?
    requires a.run in s.runs && |NewEvents(s, a)| == 1
    ensures Admissible(cfg, s, a.run, NewEvents(s, a)[0], s.runs[a.run].status)
  {
    var r := a.run;
    var log := s.runs[r].log;
    assert Safe(cfg, s, r);
    match a
    case RecordDecision(_, ruling, decision, principal, now) =>
      var k :| 0 <= k <= |LogOf(s, r)| && Reviewed(cfg, LogOf(s, r)[..k], ruling, decision, principal);
      DecisionIsSound(cfg, log, ruling, decision, principal, k, now);
    case RecordExpiry(_, n, answered, sweptAt, now) =>
      var k :| 0 <= k <= |LogOf(s, r)| &&
               var status := ApprovalFold(LogOf(s, r)[..k], n);
               status.Pending? && status.sequence == answered && status.request.Expired(sweptAt);
      ExpiryIsSound(cfg, log, n, answered, k, sweptAt, now);
    case RecordEscalation(_, n, answered, now) =>
      assert (log + [Event(ApprovalEscalated(n, answered), now)])[..|log|] == log;
  }

  /** Events that ask nothing of the log before them, and leave the run's status alone. */
  predicate AsksNothing(kind: EventKind) {
    !NeedsLiveRun(kind) && !kind.ToolApprovalRequired?
  }

  lemma NeutralIsAdmissible(cfg: Config, s: Store, r: RunId, e: Event)
    requires r in s.runs && AsksNothing(e.kind)
    ensures Admissible(cfg, s, r, e, s.runs[r].status)
  {
  }

  lemma EndIsAdmissible(cfg: Config, s: Store, r: RunId, status: WorkflowStatus, now: Time)
    requires LiveRun(s, r) && status.IsTerminal()
    ensures Admissible(cfg, s, r, Event(EndEvent(status), now), status)
  {
  }

  lemma RequestIsAdmissible(cfg: Config, s: Store, a: Action)
    requires WellFormed(s) && a.RaiseRequest? && Legal(cfg, s, a)
    ensures s.items[a.item].run in s.runs
    ensures Admissible(cfg, s, s.items[a.item].run, Event(ToolApprovalRequired(s.items[a.item].node, a.request), a.now),
                       s.runs[s.items[a.item].run].status)
  {
    assert ItemWellFormed(s, a.item);
    RaisedRequestBinds(cfg, s, a);
  }

  predicate WritesNeutrally(a: Action) {
    || a.RecordViolation? || a.RecordUnknown? || a.FailRejectedNode? || a.SkipNode? || a.ScheduleNode?
    || a.SweepRecordFailure? || a.SweepRecordRetry? || a.RecordStarted?
  }

  lemma NeutralWrite(s: Store, a: Action)
    requires WritesNeutrally(a) && TouchedRun(s, a) in s.runs
    ensures |NewEvents(s, a)| == 1 && AsksNothing(NewEvents(s, a)[0].kind)
    ensures StatusAfter(s, a, TouchedRun(s, a)) == s.runs[TouchedRun(s, a)].status
  {
  }

  lemma OtherWritesAppendNothing(s: Store, a: Action)
    requires !WritesNeutrally(a) && !a.CommitTurn? && !a.RaiseRequest? && !a.FinishExecution? && !a.ExpireLease?
    requires !a.RecordDecision? && !a.RecordExpiry? && !a.RecordEscalation?
    ensures NewEvents(s, a) == []
  {
  }

  /** Every event a legal write appends is admissible. Two-event writes append neutral events only. */
  lemma {:induction false} NewEventsAdmissible(cfg: Config, s: Store, a: Action)
    requires WellFormed(s) && AllSafe(cfg, s) && Legal(cfg, s, a)
    requires TouchedRun(s, a) in s.runs && !a.ResumeRun? && |NewEvents(s, a)| == 1
    ensures Admissible(cfg, s, TouchedRun(s, a), NewEvents(s, a)[0], StatusAfter(s, a, TouchedRun(s, a)))
  {
    if a.CommitTurn? {
      CommitIsAdmissible(cfg, s, a);
    } else if a.RecordDecision? || a.RecordExpiry? || a.RecordEscalation? {
      ResolutionIsAdmissible(cfg, s, a);
    } else if a.RaiseRequest? {
      RequestIsAdmissible(cfg, s, a);
    } else if a.FinishExecution? {
      EndIsAdmissible(cfg, s, a.run, a.status, a.now);
    } else if WritesNeutrally(a) {
      NeutralWrite(s, a);
      NeutralIsAdmissible(cfg, s, TouchedRun(s, a), NewEvents(s, a)[0]);
    } else if !a.ExpireLease? {
      OtherWritesAppendNothing(s, a);
    }
  }

  lemma {:induction false} ExistingRunIsSafe(cfg: Config, s: Store, t: Store, a: Action, r: RunId)
    requires WellFormed(s) && AllSafe(cfg, s) && Legal(cfg, s, a) && !a.ResumeRun?
    requires t == Apply(s, a) && Extends(s, t) && r in s.runs && !LeaseExpires(s, a)
    ensures r in t.runs && Safe(cfg, t, r)
  {
    RunAfter(s, a, r);
    if r == TouchedRun(s, a) && |NewEvents(s, a)| == 1 {
      TouchedRunIsSafe(cfg, s, t, a);
    } else {
      UntouchedRunIsSafe(cfg, s, t, a, r);
    }
  }

  lemma AtMostOneEvent(s: Store, a: Action)
    requires !LeaseExpires(s, a)
    ensures |NewEvents(s, a)| <= 1
  {
  }

  lemma EndingIsRecorded(s: Store, a: Action, r: RunId)
    requires r in s.runs && !a.ResumeRun? && (r != TouchedRun(s, a) || NewEvents(s, a) == [])
    ensures StatusAfter(s, a, r) == s.runs[r].status
  {
  }

  lemma UntouchedRunIsSafe(cfg: Config, s: Store, t: Store, a: Action, r: RunId)
    requires WellFormed(s) && AllSafe(cfg, s) && !a.ResumeRun? && !LeaseExpires(s, a)
    requires Extends(s, t) && r in s.runs && (r != TouchedRun(s, a) || |NewEvents(s, a)| != 1)
    requires r in t.runs && t.runs[r].workflow == s.runs[r].workflow && t.runs[r].status == StatusAfter(s, a, r)
    requires t.runs[r].log == s.runs[r].log + (if r == TouchedRun(s, a) then NewEvents(s, a) else [])
    ensures Safe(cfg, t, r)
  {
    AtMostOneEvent(s, a);
    EndingIsRecorded(s, a, r);
    assert Safe(cfg, s, r);
    assert t.runs[r].log == s.runs[r].log;
    GatesHoldUnchanged(s, t, r);
  }

  lemma {:induction false} TouchedRunIsSafe(cfg: Config, s: Store, t: Store, a: Action)
    requires WellFormed(s) && AllSafe(cfg, s) && Legal(cfg, s, a) && !a.ResumeRun?
    requires Extends(s, t) && TouchedRun(s, a) in s.runs && |NewEvents(s, a)| == 1
    requires var r := TouchedRun(s, a);
             t.runs[r] == s.runs[r].(log := s.runs[r].log + NewEvents(s, a), status := StatusAfter(s, a, r))
    ensures TouchedRun(s, a) in t.runs && Safe(cfg, t, TouchedRun(s, a))
  {
    var r := TouchedRun(s, a);
    assert Safe(cfg, s, r);
    NewEventsAdmissible(cfg, s, a);
    assert NewEvents(s, a) == [NewEvents(s, a)[0]];
    SafeAppend(cfg, s, t, r, NewEvents(s, a)[0]);
  }

  predicate LeaseExpires(s: Store, a: Action) {
    a.ExpireLease? && Expires(s, a.item)
  }

  lemma NewRunIsSafe(cfg: Config, s: Store, a: Action, r: RunId)
    requires r in Apply(s, a).runs && r !in s.runs
    ensures Safe(cfg, Apply(s, a), r)
  {
    RunCreated(s, a, r);
  }

  lemma StepIsSafe(cfg: Config, s: Store, a: Action)
    requires WellFormed(s) && AllSafe(cfg, s) && Legal(cfg, s, a) && !a.ResumeRun?
    ensures AllSafe(cfg, Apply(s, a))
  {
    var t := Apply(s, a);
    ApplyExtends(cfg, s, a);
    forall r | r in t.runs ensures Safe(cfg, t, r) {
      if r !in s.runs {
        NewRunIsSafe(cfg, s, a, r);
      } else if LeaseExpires(s, a) {
        ExpiringRunIsSafe(cfg, s, t, a, r);
      } else {
        ExistingRunIsSafe(cfg, s, t, a, r);
      }
    }
  }

  lemma {:induction false} ExpiringRunIsSafe(cfg: Config, s: Store, t: Store, a: Action, r: RunId)
    requires WellFormed(s) && AllSafe(cfg, s) && LeaseExpires(s, a)
    requires t == Apply(s, a) && Extends(s, t) && r in s.runs
    ensures r in t.runs && Safe(cfg, t, r)
  {
    if r == s.items[a.item].run {
      ExpiryKeepsSafe(cfg, s, a);
    } else {
      RunAfter(s, a, r);
      assert Safe(cfg, s, r) && t.runs[r].log == s.runs[r].log;
      GatesHoldUnchanged(s, t, r);
    }
  }

  lemma NeutralAppendKeepsSafe(cfg: Config, s: Store, r: RunId, kind: EventKind, now: Time)
    requires WellFormed(s) && r in s.runs && Safe(cfg, s, r)
    requires kind.NodeFailed? || kind.RetryScheduled?
    ensures WellFormed(Append(s, r, kind, now)) && Safe(cfg, Append(s, r, kind, now), r)
  {
    AppendExtends(s, r, kind, now);
    SafeAppend(cfg, s, Append(s, r, kind, now), r, Event(kind, now));
  }

  lemma ExpiryKeepsSafe(cfg: Config, s: Store, a: Action)
    requires WellFormed(s) && AllSafe(cfg, s) && a.ExpireLease? && Expires(s, a.item)
    ensures Safe(cfg, Apply(s, a), s.items[a.item].run)
  {
    var it := s.items[a.item];
    var r := it.run;
    assert ItemWellFormed(s, a.item);
    assert Safe(cfg, s, r);
    var t1 := Append(s, r, NodeFailed(it.node, true), a.now);
    NeutralAppendKeepsSafe(cfg, s, r, NodeFailed(it.node, true), a.now);
    NeutralAppendKeepsSafe(cfg, t1, r, RetryScheduled(it.node), a.now);
    SafeDependsOnTheRun(cfg, Append(t1, r, RetryScheduled(it.node), a.now), Apply(s, a), r);
  }

  lemma SafeDependsOnTheRun(cfg: Config, s: Store, t: Store, r: RunId)
    requires r in s.runs && r in t.runs && t.runs[r] == s.runs[r] && t.workflows == s.workflows
    requires Safe(cfg, s, r)
    ensures Safe(cfg, t, r)
  {
    var log := s.runs[r].log;
    forall j | 0 <= j < |log| ensures RequestBinds(t, r, log[j].kind) {
      assert RequestBinds(s, r, log[j].kind);
    }
    forall j | 0 <= j < |log| && log[j].kind.NodeCompleted? && Gated(t, r, log[j].kind.node)
      ensures Covered(t, r, log[..j], log[j].kind.node)
    {
      CoverIsStable(s, t, r, log[..j], log[j].kind.node);
    }
  }

  // ---------------------------------------------------------------------------
  // Every run
  // ---------------------------------------------------------------------------

  predicate NeverResumes(acts: seq<Action>) {
    forall a | a in acts :: !a.ResumeRun?
  }

  lemma {:induction false} TraceIsSafe(cfg: Config, s: Store, acts: seq<Action>)
    requires WellFormed(s) && AllSafe(cfg, s) && ValidTrace(cfg, s, acts) && NeverResumes(acts)
    ensures WellFormed(After(s, acts)) && AllSafe(cfg, After(s, acts))
    decreases |acts|
  {
    if |acts| > 0 {
      ApplyExtends(cfg, s, acts[0]);
      StepIsSafe(cfg, s, acts[0]);
      TraceIsSafe(cfg, Apply(s, acts[0]), acts[1..]);
    }
  }

  /** From the empty store, every interleaving of every write leaves every run's log safe. */
  lemma ReachableIsSafe(cfg: Config, acts: seq<Action>)
    requires ValidTrace(cfg, EmptyStore, acts) && NeverResumes(acts)
    ensures WellFormed(After(EmptyStore, acts)) && AllSafe(cfg, After(EmptyStore, acts))
  {
    TraceIsSafe(cfg, EmptyStore, acts);
  }

  /** So a node that its registered workflow denies has no result in any run, whatever the tenant's policy was
      and whoever reported one. */
  lemma DeniedNeverCompletes(cfg: Config, acts: seq<Action>, r: RunId, j: nat)
    requires ValidTrace(cfg, EmptyStore, acts) && NeverResumes(acts)
    requires var t := After(EmptyStore, acts);
             r in t.runs && j < |t.runs[r].log| && t.runs[r].log[j].kind.NodeCompleted?
    ensures var t := After(EmptyStore, acts);
            && t.runs[r].workflow in t.workflows
            && var nodes := t.workflows[t.runs[r].workflow].nodes;
            t.runs[r].log[j].kind.node in nodes ==> nodes[t.runs[r].log[j].kind.node].rule != Some(Deny)
  {
    ReachableIsSafe(cfg, acts);
    var t := After(EmptyStore, acts);
    assert Safe(cfg, t, r);
    assert !Denied(t, r, t.runs[r].log[j].kind.node);
  }
}
