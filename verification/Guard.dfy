/**
 The policy and approval decision for one work item (runtime/workers/src/node_guard.rs), reduced to
 the four outcomes the claim and completion routes act on.

 What a node's own workflow says comes from the stored definition; what the tenant says is a
 parameter, because it can change between two evaluations. The other refusals of the guard (agent
 cards, autonomy limits, an unreadable store) are a `veto` the environment may raise.
 */
module Guard {
  import opened Wrappers
  import opened EventLog
  import opened Approvals

  datatype Rule = Permit | Deny | Gate

  /** `rule` is what the workflow- and node-level policy say; `None` leaves it to the tenant. */
  datatype NodeDef = NodeDef(definition: Definition, rule: Option<Rule>)

  datatype Outcome =
    | Allow
    | Blocked
    | Held(raised: Option<Request>)
    | Unavailable

  datatype Deadline = Deadline(expiresAt: DeadlineTime, escalateAt: DeadlineTime)

  /** The most specific layer of the chain that speaks decides. */
  function Evaluate(def: NodeDef, tenant: Rule): Rule {
    if def.rule.Some? then def.rule.value else tenant
  }

  predicate Covers(status: ApprovalStatus, action: Binding) {
    status.Approved? && status.approvedDigest == Some(action)
  }

  /** `require_approval`: `log` is the log the guard read, `step` the completion count it read after. */
  function RequireApproval(def: NodeDef, log: Log, run: RunId, n: NodeId, payload: Payload, step: nat,
                           deadline: Deadline): Outcome
  {
    var status := NodeApprovalStatus(log, n);
    if status.Indeterminate? then Unavailable
    else if status.Withholds() then Held(None)
    else
      var action := ActionDigest(run, step, n, def.definition, payload);
      if Covers(status, action) then Allow
      else Held(Some(Request(Some(action), None, Some(step), deadline.expiresAt, deadline.escalateAt)))
  }

  /** `GuardMode::Fire`: may this node run now? */
  function GuardFire(def: NodeDef, tenant: Rule, log: Log, run: RunId, n: NodeId, payload: Payload,
                     step: nat, deadline: Deadline): Outcome
  {
    match Evaluate(def, tenant)
    case Deny => Blocked
    case Permit => Allow
    case Gate => RequireApproval(def, log, run, n, payload, step, deadline)
  }

  /** `GuardMode::Complete`: may a result for this node be recorded? Never raises a request. */
  function GuardComplete(def: NodeDef, tenant: Rule, log: Log, run: RunId, n: NodeId, payload: Payload,
                         step: nat): Outcome
  {
    match Evaluate(def, tenant)
    case Deny => Blocked
    case Permit => Allow
    case Gate =>
      var status := NodeApprovalStatus(log, n);
      var answered := AnsweredRequest(log, n);
      if !status.Approved? || answered.None? then Held(None)
      else
        match answered.value.1.step
        case Some(requested) => if requested == step then Allow else Held(None)
        case None =>
          if Covers(status, ActionDigest(run, step, n, def.definition, payload)) then Allow else Held(None)
  }

  /** A gated node is released only under an approval of exactly the action it would perform. */
  lemma ReleaseNeedsAnApproval(def: NodeDef, tenant: Rule, log: Log, run: RunId, n: NodeId, payload: Payload,
                               step: nat, deadline: Deadline)
    requires def.rule == Some(Gate)
    requires GuardFire(def, tenant, log, run, n, payload, step, deadline).Allow?
    ensures exists j | 0 <= j < |log| ::
              && log[j].kind.ApprovalReceived? && log[j].kind.node == n && log[j].kind.decision.Approve?
              && log[j].kind.approvedDigest == Some(ActionDigest(run, step, n, def.definition, payload))
  {
    ApprovedNamesItsDecision(log, n);
    var status := ApprovalFold(log, n);
    assert log[status.sequence - 1].kind.ApprovalReceived?;
  }

  /** The event at `j` approves `n`, on the request `n` was pending on. */
  predicate Approves(log: Log, j: nat, n: NodeId, request: Request) {
    && j < |log|
    && log[j].kind.ApprovalReceived? && log[j].kind.node == n && log[j].kind.decision.Approve?
    && var before := ApprovalFold(log[..j], n);
    && before.Pending? && before.request == request
  }

  /** A result of a gated node is recordable only under the latest approval of it in the log, whose request
      was raised for this very occurrence. Of a request that names no occurrence the digest is compared. */
  lemma RecordingNeedsAnApproval(def: NodeDef, tenant: Rule, log: Log, run: RunId, n: NodeId, payload: Payload,
                                 step: nat)
    requires def.rule == Some(Gate)
    requires GuardComplete(def, tenant, log, run, n, payload, step).Allow?
    ensures exists j: nat, request: Request ::
              && Approves(log, j, n, request)
              && AnsweredRequest(log, n) == Some((ApprovalFold(log[..j], n).sequence, request))
              && NodeApprovalStatus(log, n) == Approved(j + 1, log[j].kind.approvedDigest)
              && (request.step.Some? ==> request.step == Some(step))
              && (request.step.None? ==>
                    log[j].kind.approvedDigest == Some(ActionDigest(run, step, n, def.definition, payload)))
  {
    ApprovedNamesItsDecision(log, n);
    DecisionIsOnTheLatest(log, n);
    var status := ApprovalFold(log, n);
    var request := AnsweredRequest(log, n).value.1;
    assert Approves(log, status.sequence - 1, n, request);
  }

  // ---------------------------------------------------------------------------
  // The two decisions, said of the policies and the log's entries
  // ---------------------------------------------------------------------------

  /** What holds for a node: its workflow's word, and only where that is silent the tenant's. */
  predicate Says(def: NodeDef, tenant: Rule, rule: Rule) {
    def.rule == Some(rule) || (def.rule.None? && tenant == rule)
  }

  /** Entry `j` approves what request `q` asked, and that was the node's latest request. */
  predicate ApprovedAt(log: Log, n: NodeId, q: nat, j: nat) {
    AnsweredAt(log, n, q, j) && log[j].kind.ApprovalReceived? && log[j].kind.decision.Approve?
  }

  /** The latest request of the node was approved, by an entry that carries exactly this action. */
  predicate ApprovedFor(log: Log, n: NodeId, action: Binding) {
    && Readable(log)
    && exists q, j | 0 <= q < j < |log| :: ApprovedAt(log, n, q, j) && log[j].kind.approvedDigest == Some(action)
  }

  /** The latest request of the node is open, or was answered by a rejection or its expiry. */
  predicate OpenOrRefused(log: Log, n: NodeId) {
    || (exists q | 0 <= q < |log| :: OpenUntil(log, n, q, |log|))
    || (exists q, j | 0 <= q < j < |log| :: AnsweredAt(log, n, q, j) && !ApprovedAt(log, n, q, j))
  }

  /** The latest request of the node was approved, and it was raised for this occurrence; one that names no
      occurrence must have been approved for exactly this action. */
  predicate ApprovedForOccurrence(log: Log, n: NodeId, step: nat, action: Binding) {
    && Readable(log)
    && exists q, j | 0 <= q < j < |log| ::
         && ApprovedAt(log, n, q, j)
         && (if log[q].kind.request.step.Some? then log[q].kind.request.step == Some(step)
             else log[j].kind.approvedDigest == Some(action))
  }

  lemma ApprovedIs(log: Log, n: NodeId, q: nat, j: nat)
    requires Readable(log) && q < j < |log| && ApprovedAt(log, n, q, j)
    ensures NodeApprovalStatus(log, n) == Approved(j + 1, log[j].kind.approvedDigest)
    ensures AnsweredRequest(log, n) == Some((q + 1, log[q].kind.request))
  {
    AnsweredIs(log, n, q, j);
  }

  lemma ApprovedWhere(log: Log, n: NodeId) returns (q: nat, j: nat)
    requires NodeApprovalStatus(log, n).Approved?
    ensures Readable(log) && q < j < |log| && ApprovedAt(log, n, q, j)
  {
    var status := NodeApprovalStatus(log, n);
    StatusIs(log, n, status);
    q, j :| 0 <= q < j < |log| && AnsweredAs(log, n, q, j, status);
  }

  lemma WithholdsIff(log: Log, n: NodeId)
    requires Readable(log)
    ensures NodeApprovalStatus(log, n).Withholds() <==> OpenOrRefused(log, n)
  {
    var status := NodeApprovalStatus(log, n);
    StatusIs(log, n, status);
    if q :| 0 <= q < |log| && OpenUntil(log, n, q, |log|) {
      assert OpenAs(log, n, q, Pending(q + 1, log[q].kind.request));
      StatusIs(log, n, Pending(q + 1, log[q].kind.request));
    } else if q, j :| 0 <= q < j < |log| && AnsweredAt(log, n, q, j) && !ApprovedAt(log, n, q, j) {
      assert AnsweredAs(log, n, q, j, Rejected(j + 1));
      StatusIs(log, n, Rejected(j + 1));
    }
  }

  /** The firing guard, exactly. A node that is denied never runs and one that is permitted always may. One
      that is gated runs only on an approval of this very action; while its request is open, or once it was
      refused, the node is held with nothing raised; a log with an unreadable entry decides nothing; and in
      every other case a request is raised, for this action and occurrence, with the deadline given. */
  lemma FiresIff(def: NodeDef, tenant: Rule, log: Log, run: RunId, n: NodeId, payload: Payload, step: nat,
                 deadline: Deadline)
    ensures var outcome := GuardFire(def, tenant, log, run, n, payload, step, deadline);
            var action := ActionDigest(run, step, n, def.definition, payload);
            var gated := Says(def, tenant, Gate);
            && (outcome.Allow? <==> Says(def, tenant, Permit) || (gated && ApprovedFor(log, n, action)))
            && (outcome.Blocked? <==> Says(def, tenant, Deny))
            && (outcome.Unavailable? <==> gated && !Readable(log))
            && (outcome == Held(None) <==> gated && Readable(log) && OpenOrRefused(log, n))
            && (outcome.Held? && outcome.raised.Some? ==>
                  outcome.raised.value == Request(Some(action), None, Some(step), deadline.expiresAt, deadline.escalateAt))
  {
    var action := ActionDigest(run, step, n, def.definition, payload);
    assert Readable(log) <==> !HasUnreadable(log);
    ListingAgreesWithStatus(log, n);
    if NodeApprovalStatus(log, n).Approved? {
      var q, j := ApprovedWhere(log, n);
      ApprovedIs(log, n, q, j);
    }
    if ApprovedFor(log, n, action) {
      var q, j :| 0 <= q < j < |log| && ApprovedAt(log, n, q, j) && log[j].kind.approvedDigest == Some(action);
      ApprovedIs(log, n, q, j);
    }
    if Readable(log) {
      WithholdsIff(log, n);
    }
  }

  /** The completing guard, exactly. It never records a result of a node that is denied, and one of a gated
      node only under an approval given for the occurrence at hand. */
  lemma CompletesIff(def: NodeDef, tenant: Rule, log: Log, run: RunId, n: NodeId, payload: Payload, step: nat)
    ensures var outcome := GuardComplete(def, tenant, log, run, n, payload, step);
            var action := ActionDigest(run, step, n, def.definition, payload);
            var gated := Says(def, tenant, Gate);
            && (outcome.Allow? <==>
                  Says(def, tenant, Permit) || (gated && ApprovedForOccurrence(log, n, step, action)))
            && (outcome.Blocked? <==> Says(def, tenant, Deny))
            && (outcome == Held(None) <==> gated && !ApprovedForOccurrence(log, n, step, action))
  {
    var action := ActionDigest(run, step, n, def.definition, payload);
    if NodeApprovalStatus(log, n).Approved? {
      var q, j := ApprovedWhere(log, n);
      ApprovedIs(log, n, q, j);
    }
    if ApprovedForOccurrence(log, n, step, action) {
      var q, j :| 0 <= q < j < |log| && ApprovedAt(log, n, q, j)
                  && (if log[q].kind.request.step.Some? then log[q].kind.request.step == Some(step)
                      else log[j].kind.approvedDigest == Some(action));
      ApprovedIs(log, n, q, j);
    }
  }
}
