/**
 One run's append-only event log and the two folds the engine computes from it: the approval
 status of a node (runtime/state/src/approvals.rs) and the scheduler's progress for a node
 (runtime/scheduler/src/runner.rs).

 The backend assigns each appended event the next sequence number inside the append, and nothing
 removes an event, so the event at position `i` of a log carries sequence `i + 1`.
 */
module EventLog {
  import opened Wrappers

  type Time = int
  type NodeId(==, !new)
  type Principal(==, !new)
  type Payload(==, !new)
  type Definition(==, !new)
  type Output(==, !new)
  type RunId = nat

  // ---------------------------------------------------------------------------
  // Approval requests
  // ---------------------------------------------------------------------------

  /** A recorded deadline. An unreadable one counts as passed; a missing one never passes. */
  datatype DeadlineTime = Unset | At(at: Time) | Unreadable
  {
    predicate Passed(now: Time) {
      match this
      case Unset => false
      case At(at) => now >= at
      case Unreadable => true
    }
  }

  /** What an approval binds. `ActionDigest` is the content hash of exactly these five values,
      kept as the values themselves; `CallsHash` is the binding of older tool-dispatch requests. */
  datatype Binding =
    | ActionDigest(run: RunId, step: nat, node: NodeId, definition: Definition, payload: Payload)
    | CallsHash(hash: int)

  datatype Request = Request(
    actionDigest: Option<Binding>,
    callsHash: Option<Binding>,
    step: Option<nat>,
    expiresAt: DeadlineTime,
    escalateAt: DeadlineTime)
  {
    /** What a decider must echo. */
    function Echo(): Option<Binding> {
      if actionDigest.Some? then actionDigest else callsHash
    }

    predicate Expired(now: Time) {
      expiresAt.Passed(now)
    }
  }

  datatype Decision = Approve | Reject

  // ---------------------------------------------------------------------------
  // Events
  // ---------------------------------------------------------------------------

  datatype EventKind =
    | WorkflowStarted(initiatedBy: Option<Principal>)
    | WorkflowCompleted
    | WorkflowFailed
    | WorkflowCancelled
    | NodeScheduled(node: NodeId)
    | NodeStarted(node: NodeId)
    | NodeCompleted(node: NodeId, output: Output)
    | NodeSkipped(node: NodeId)
    | NodeCancelled(node: NodeId)
    | NodeFailed(node: NodeId, retryable: bool)
    | RetryScheduled(node: NodeId)
    | ToolApprovalRequired(node: NodeId, request: Request)
    | ApprovalReceived(node: NodeId, decision: Decision, principal: Option<Principal>,
                       approvedDigest: Option<Binding>, answered: nat)
    | ApprovalExpired(node: NodeId, answered: nat)
    | ApprovalEscalated(node: NodeId, answered: nat)
    | PolicyViolation(node: NodeId)
    | Unknown

  /** `at` is the clock the append's condition is evaluated against. The stored `created_at` is taken by the
      caller, before the append, and nothing here reads it. */
  datatype Event = Event(kind: EventKind, at: Time)

  type Log = seq<Event>

  predicate EndsRun(kind: EventKind) {
    kind.WorkflowCompleted? || kind.WorkflowFailed? || kind.WorkflowCancelled?
  }

  /** The node an event is about, when the folds read it. */
  predicate Concerns(kind: EventKind, n: NodeId) {
    match kind
    case NodeScheduled(m) => m == n
    case NodeStarted(m) => m == n
    case NodeCompleted(m, _) => m == n
    case NodeSkipped(m) => m == n
    case NodeCancelled(m) => m == n
    case NodeFailed(m, _) => m == n
    case RetryScheduled(m) => m == n
    case ToolApprovalRequired(m, _) => m == n
    case ApprovalReceived(m, _, _, _, _) => m == n
    case ApprovalExpired(m, _) => m == n
    case _ => false
  }

  predicate Readable(log: Log) {
    forall i | 0 <= i < |log| :: log[i].kind != Unknown
  }

  predicate HasUnreadable(log: Log) {
    exists i | 0 <= i < |log| :: log[i].kind.Unknown?
  }

  /** How many times `n` has completed: the occurrence its next run is. */
  function Completions(log: Log, n: NodeId): nat {
    if |log| == 0 then 0
    else
      var last := log[|log| - 1].kind;
      Completions(log[..|log| - 1], n) + (if last.NodeCompleted? && last.node == n then 1 else 0)
  }

  /** The principal of the first `WorkflowStarted`. */
  function RunInitiator(log: Log): Option<Principal> {
    if |log| == 0 then None
    else if log[0].kind.WorkflowStarted? then log[0].kind.initiatedBy
    else RunInitiator(log[1..])
  }

  /** The run's initiator, said of the entries: what the first entry that starts a workflow says, if any does. */
  lemma {:induction false} InitiatorIsTheFirst(log: Log, k: nat)
    requires k <= |log| && forall i | 0 <= i < k :: !log[i].kind.WorkflowStarted?
    ensures k == |log| ==> RunInitiator(log) == None
    ensures k < |log| && log[k].kind.WorkflowStarted? ==> RunInitiator(log) == log[k].kind.initiatedBy
  {
    if k > 0 {
      assert forall i | 0 <= i < k - 1 :: log[1..][i] == log[i + 1];
      InitiatorIsTheFirst(log[1..], k - 1);
    }
  }

  // ---------------------------------------------------------------------------
  // Approval status of a node
  // ---------------------------------------------------------------------------

  datatype ApprovalStatus =
    | NotRequested
    | Pending(sequence: nat, request: Request)
    | Approved(sequence: nat, approvedDigest: Option<Binding>)
    | Rejected(sequence: nat)
    | Indeterminate
  {
    /** A request is open, or was refused: the node waits for a decision or for its failure. */
    predicate Withholds() {
      Pending? || Rejected?
    }
  }

  function ApprovalStep(status: ApprovalStatus, kind: EventKind, sequence: nat, n: NodeId): ApprovalStatus {
    match kind
    case ToolApprovalRequired(m, request) => if m == n then Pending(sequence, request) else status
    case ApprovalReceived(m, decision, _, digest, _) =>
      if m == n && status.Pending? then
        (if decision.Approve? then Approved(sequence, digest) else Rejected(sequence))
      else status
    case ApprovalExpired(m, answered) =>
      if m == n && status.Pending? && status.sequence == answered then Rejected(sequence) else status
    case _ => status
  }

  /** The fold of `node_approval_status`, before its check for unreadable events. */
  function ApprovalFold(log: Log, n: NodeId): ApprovalStatus {
    if |log| == 0 then NotRequested
    else ApprovalStep(ApprovalFold(log[..|log| - 1], n), log[|log| - 1].kind, |log|, n)
  }

  function NodeApprovalStatus(log: Log, n: NodeId): ApprovalStatus {
    if HasUnreadable(log) then Indeterminate else ApprovalFold(log, n)
  }

  lemma ApprovalFoldAppend(log: Log, e: Event, n: NodeId)
    ensures ApprovalFold(log + [e], n) == ApprovalStep(ApprovalFold(log, n), e.kind, |log| + 1, n)
  {
    assert (log + [e])[..|log|] == log;
  }

  lemma {:induction false} CompletionsMonotone(log: Log, k: nat, n: NodeId)
    requires k <= |log|
    ensures Completions(log[..k], n) <= Completions(log, n)
  {
    if k == |log| {
      assert log[..k] == log;
    } else {
      var shorter := log[..|log| - 1];
      CompletionsMonotone(shorter, k, n);
      assert shorter[..k] == log[..k];
    }
  }

  /** The count is of the node's own completions, each once. */
  lemma {:induction false} CompletionsCounts(log: Log, n: NodeId)
    ensures Completions(log, n) == |set i | 0 <= i < |log| && log[i].kind.NodeCompleted? && log[i].kind.node == n|
  {
    var here := set i | 0 <= i < |log| && log[i].kind.NodeCompleted? && log[i].kind.node == n;
    if log != [] {
      var shorter, last := log[..|log| - 1], |log| - 1;
      CompletionsCounts(shorter, n);
      var before := set i | 0 <= i < |shorter| && shorter[i].kind.NodeCompleted? && shorter[i].kind.node == n;
      if log[last].kind.NodeCompleted? && log[last].kind.node == n {
        assert here == before + {last};
      } else {
        assert here == before;
      }
    }
  }

  /** A completion in between is counted. */
  lemma CountMoves(log: Log, n: NodeId, before: nat, j: nat, later: nat)
    requires before <= j < later <= |log| && log[j].kind.NodeCompleted? && log[j].kind.node == n
    ensures Completions(log[..before], n) < Completions(log[..later], n)
  {
    CompletionsMonotone(log[..j], before, n);
    CompletionsMonotone(log[..later], j + 1, n);
    assert log[..j][..before] == log[..before] && log[..later][..j + 1] == log[..j + 1];
    assert log[..j + 1][..j] == log[..j];
  }

  lemma {:induction false} CountStays(log: Log, n: NodeId, before: nat, later: nat)
    requires before <= later <= |log|
    requires forall j | before <= j < later :: !(log[j].kind.NodeCompleted? && log[j].kind.node == n)
    ensures Completions(log[..before], n) == Completions(log[..later], n)
    decreases later
  {
    if before < later {
      CountStays(log, n, before, later - 1);
      assert log[..later][..later - 1] == log[..later - 1];
    }
  }

  /** A pending status names a request that is in the log, at its sequence, for that node. */
  lemma {:induction false} PendingNamesItsRequest(log: Log, n: NodeId)
    ensures var status := ApprovalFold(log, n);
            status.Pending? ==>
              && 0 < status.sequence <= |log|
              && log[status.sequence - 1].kind == ToolApprovalRequired(n, status.request)
  {
    if |log| > 0 {
      PendingNamesItsRequest(log[..|log| - 1], n);
    }
  }

  /** While a node stays pending on a request, every prefix from that request on shows it pending. */
  lemma {:induction false} PendingSinceRequest(log: Log, n: NodeId, k: nat)
    requires ApprovalFold(log, n).Pending?
    requires ApprovalFold(log, n).sequence <= k <= |log|
    ensures ApprovalFold(log[..k], n) == ApprovalFold(log, n)
  {
    if k == |log| {
      assert log[..k] == log;
    } else {
      var shorter := log[..|log| - 1];
      PendingSinceRequest(shorter, n, k);
      assert shorter[..k] == log[..k];
    }
  }

  /** An approved status was decided at its sequence: the event there is an approval carrying that
      digest, and the node was pending just before it. */
  lemma {:induction false} ApprovedNamesItsDecision(log: Log, n: NodeId)
    ensures var status := ApprovalFold(log, n);
            status.Approved? ==>
              && 0 < status.sequence <= |log|
              && var kind := log[status.sequence - 1].kind;
              && kind.ApprovalReceived? && kind.node == n && kind.decision.Approve?
              && kind.approvedDigest == status.approvedDigest
              && ApprovalFold(log[..status.sequence - 1], n).Pending?
  {
    if |log| > 0 {
      var shorter := log[..|log| - 1];
      ApprovedNamesItsDecision(shorter, n);
      var status := ApprovalFold(log, n);
      if status.Approved? && status.sequence < |log| {
        assert shorter[..status.sequence - 1] == log[..status.sequence - 1];
      }
    }
  }

  // What the fold comes to, said of the log's entries alone.

  predicate AsksFor(e: Event, n: NodeId) {
    e.kind.ToolApprovalRequired? && e.kind.node == n
  }

  /** The entry answers the request that is entry `q`: any decision for the node does, and the expiry that
      names the request. */
  predicate Answers(e: Event, n: NodeId, q: nat) {
    || (e.kind.ApprovalReceived? && e.kind.node == n)
    || (e.kind.ApprovalExpired? && e.kind.node == n && e.kind.answered == q + 1)
  }

  /** Entry `q` is a request of `n`, and just before entry `upto` it is the latest and unanswered. */
  predicate OpenUntil(log: Log, n: NodeId, q: nat, upto: nat) {
    && q < upto <= |log| && AsksFor(log[q], n)
    && forall k | q < k < upto :: !AsksFor(log[k], n) && !Answers(log[k], n, q)
  }

  /** Entry `j` answers request `q`, and no request of `n` comes after it. */
  predicate AnsweredAt(log: Log, n: NodeId, q: nat, j: nat) {
    && j < |log| && OpenUntil(log, n, q, j) && Answers(log[j], n, q)
    && forall k | j < k < |log| :: !AsksFor(log[k], n)
  }

  predicate EverAsked(log: Log, n: NodeId) {
    exists q | 0 <= q < |log| :: AsksFor(log[q], n)
  }

  /** What the answer at `j` makes of the node. */
  function AnswerAt(log: Log, j: nat): ApprovalStatus
    requires j < |log|
  {
    var kind := log[j].kind;
    if kind.ApprovalReceived? && kind.decision.Approve? then Approved(j + 1, kind.approvedDigest) else Rejected(j + 1)
  }

  predicate OpenAs(log: Log, n: NodeId, q: nat, status: ApprovalStatus) {
    OpenUntil(log, n, q, |log|) && status == Pending(q + 1, log[q].kind.request)
  }

  predicate AnsweredAs(log: Log, n: NodeId, q: nat, j: nat, status: ApprovalStatus) {
    AnsweredAt(log, n, q, j) && status == AnswerAt(log, j)
  }

  /** A status and the entries that account for it. */
  predicate Accounts(log: Log, n: NodeId, status: ApprovalStatus) {
    || (status.NotRequested? && !EverAsked(log, n))
    || (exists q | 0 <= q < |log| :: OpenAs(log, n, q, status))
    || (exists q, j | 0 <= q < j < |log| :: AnsweredAs(log, n, q, j, status))
  }

  lemma AccountsNext(log: Log, e: Event, n: NodeId, status: ApprovalStatus)
    requires Accounts(log, n, status)
    ensures Accounts(log + [e], n, ApprovalStep(status, e.kind, |log| + 1, n))
  {
    var longer := log + [e];
    var next := ApprovalStep(status, e.kind, |log| + 1, n);
    assert forall k | 0 <= k < |log| :: longer[k] == log[k];
    assert longer[|log|] == e;
    if AsksFor(e, n) {
      assert OpenAs(longer, n, |log|, next);
    } else if q :| 0 <= q < |log| && OpenAs(log, n, q, status) {
      OpenNext(log, e, n, q, status);
    } else if q, j :| 0 <= q < j < |log| && AnsweredAs(log, n, q, j, status) {
      assert OpenUntil(longer, n, q, j);
      assert AnsweredAs(longer, n, q, j, next);
    }
  }

  lemma OpenNext(log: Log, e: Event, n: NodeId, q: nat, status: ApprovalStatus)
    requires OpenAs(log, n, q, status) && !AsksFor(e, n)
    ensures var next := ApprovalStep(status, e.kind, |log| + 1, n);
            if Answers(e, n, q) then AnsweredAs(log + [e], n, q, |log|, next) else OpenAs(log + [e], n, q, next)
  {
    var longer := log + [e];
    assert forall k | 0 <= k < |log| :: longer[k] == log[k];
    assert longer[|log|] == e;
  }

  lemma {:induction false} FoldAccounts(log: Log, n: NodeId)
    ensures Accounts(log, n, ApprovalFold(log, n))
  {
    if log != [] {
      var shorter := log[..|log| - 1];
      FoldAccounts(shorter, n);
      assert shorter + [log[|log| - 1]] == log;
      AccountsNext(shorter, log[|log| - 1], n, ApprovalFold(shorter, n));
    }
  }

  lemma OneAnswer(log: Log, n: NodeId, q1: nat, j1: nat, q2: nat, j2: nat)
    requires AnsweredAt(log, n, q1, j1) && AnsweredAt(log, n, q2, j2)
    ensures q1 == q2 && j1 == j2
  {
    assert q1 == q2;
  }

  lemma OneAccount(log: Log, n: NodeId, one: ApprovalStatus, two: ApprovalStatus)
    requires Accounts(log, n, one) && Accounts(log, n, two)
    ensures one == two
  {
    if !EverAsked(log, n) {
      NeverAskedIsAll(log, n, one);
      NeverAskedIsAll(log, n, two);
    } else if q :| 0 <= q < |log| && OpenAs(log, n, q, one) {
      OpenIsTheOnly(log, n, q, two);
    } else if q :| 0 <= q < |log| && OpenAs(log, n, q, two) {
      OpenIsTheOnly(log, n, q, one);
    } else {
      var q1, j1 :| 0 <= q1 < j1 < |log| && AnsweredAs(log, n, q1, j1, one);
      var q2, j2 :| 0 <= q2 < j2 < |log| && AnsweredAs(log, n, q2, j2, two);
      OneAnswer(log, n, q1, j1, q2, j2);
    }
  }

  lemma NeverAskedIsAll(log: Log, n: NodeId, status: ApprovalStatus)
    requires !EverAsked(log, n) && Accounts(log, n, status)
    ensures status.NotRequested?
  {
    if q :| 0 <= q < |log| && OpenAs(log, n, q, status) {
      assert false;
    } else if q, j :| 0 <= q < j < |log| && AnsweredAs(log, n, q, j, status) {
      assert false;
    }
  }

  lemma OpenIsTheOnly(log: Log, n: NodeId, q: nat, status: ApprovalStatus)
    requires OpenUntil(log, n, q, |log|) && Accounts(log, n, status)
    ensures status == Pending(q + 1, log[q].kind.request)
  {
    assert AsksFor(log[q], n) && EverAsked(log, n);
    if o :| 0 <= o < |log| && OpenAs(log, n, o, status) {
      assert o == q;
    } else if o, j :| 0 <= o < j < |log| && AnsweredAs(log, n, o, j, status) {
      assert false;
    }
  }

  /** The status of a node, without the fold: unreadable if any entry is, open on the latest request if
      nothing answered that, and otherwise what the first answer to it said. */
  lemma StatusIs(log: Log, n: NodeId, status: ApprovalStatus)
    ensures NodeApprovalStatus(log, n) == status <==>
            if Readable(log) then Accounts(log, n, status) else status.Indeterminate?
  {
    FoldAccounts(log, n);
    if Accounts(log, n, status) {
      OneAccount(log, n, status, ApprovalFold(log, n));
    }
    assert Readable(log) <==> !HasUnreadable(log);
  }

  // ---------------------------------------------------------------------------
  // The listing of pending approvals
  // ---------------------------------------------------------------------------

  /** The per-node slots of `pending_approvals`: `Some` while the node's latest request is open. */
  function PendingSlots(log: Log): map<NodeId, Option<(nat, Request)>> {
    if |log| == 0 then map[]
    else
      var slots := PendingSlots(log[..|log| - 1]);
      match log[|log| - 1].kind
      case ToolApprovalRequired(n, request) => slots[n := Some((|log|, request))]
      case ApprovalExpired(n, answered) =>
        if n in slots && slots[n].Some? && slots[n].value.0 == answered then slots[n := None] else slots
      case ApprovalReceived(n, _, _, _, _) => if n in slots then slots[n := None] else slots
      case _ => slots
  }

  /** An open slot is the request the node is pending on; a closed one is a decision. */
  predicate SlotAgrees(slot: Option<(nat, Request)>, status: ApprovalStatus) {
    if slot.Some? then status == Pending(slot.value.0, slot.value.1) else status.Approved? || status.Rejected?
  }

  /** The two independent folds agree: a node is listed as pending on a request exactly when its own
      status says so, and a node is listed at all exactly when a request for it was ever recorded. */
  lemma {:induction false} ListingAgreesWithStatus(log: Log, n: NodeId)
    ensures n in PendingSlots(log) <==> !ApprovalFold(log, n).NotRequested?
    ensures n in PendingSlots(log) ==> SlotAgrees(PendingSlots(log)[n], ApprovalFold(log, n))
    ensures !ApprovalFold(log, n).Indeterminate?
  {
    if |log| > 0 {
      ListingAgreesWithStatus(log[..|log| - 1], n);
    }
  }

  // ---------------------------------------------------------------------------
  // The scheduler's progress for a node
  // ---------------------------------------------------------------------------

  /** One node's share of `ExecProgress`. */
  datatype Progress = Progress(
    completed: bool, scheduled: bool, failed: bool, held: bool, heldRequest: Option<nat>, rejected: bool)

  const NoProgress := Progress(false, false, false, false, None, false)

  function ProgressStep(p: Progress, kind: EventKind, sequence: nat, n: NodeId): Progress {
    if !Concerns(kind, n) then p
    else
      match kind
      case NodeCompleted(_, _) => p.(completed := true, scheduled := false, held := false)
      case NodeSkipped(_) => p.(completed := true, scheduled := false, held := false)
      case NodeCancelled(_) => p.(completed := true, scheduled := false, held := false, rejected := false)
      case NodeScheduled(_) => if p.completed || p.failed then p else p.(scheduled := true)
      case NodeStarted(_) => if p.completed || p.failed then p else p.(scheduled := true)
      case RetryScheduled(_) => if p.completed || p.failed then p else p.(scheduled := true)
      case NodeFailed(_, retryable) =>
        if retryable then p.(scheduled := false)
        else p.(failed := true, scheduled := false, rejected := false, held := false)
      case ToolApprovalRequired(_, _) => p.(held := true, heldRequest := Some(sequence))
      case ApprovalReceived(_, decision, _, _, _) =>
        if !p.held then p
        else if decision.Approve? then p.(held := false, scheduled := false)
        else p.(held := false, rejected := true)
      case ApprovalExpired(_, answered) =>
        if p.heldRequest == Some(answered) && p.held then p.(held := false, rejected := true) else p
      case _ => p
  }

  function ProgressOf(log: Log, n: NodeId): Progress {
    if |log| == 0 then NoProgress
    else ProgressStep(ProgressOf(log[..|log| - 1], n), log[|log| - 1].kind, |log|, n)
  }

  lemma ProgressAppend(log: Log, e: Event, n: NodeId)
    ensures ProgressOf(log + [e], n) == ProgressStep(ProgressOf(log, n), e.kind, |log| + 1, n)
  {
    assert (log + [e])[..|log|] == log;
  }

  /** The scheduler's fold and the approval fold tell one story about an unfinished node: it holds the
      node exactly while the request the approval routes would decide is open, it marks the node for
      failure once that request was rejected or expired, and a finished node is never scheduled. */
  lemma {:induction false} ProgressAgreesWithApprovals(log: Log, n: NodeId)
    ensures var p := ProgressOf(log, n);
            var status := ApprovalFold(log, n);
            && (p.scheduled ==> !p.completed && !p.failed)
            && (!p.completed && !p.failed ==>
                  && (p.held <==> status.Pending?)
                  && (status.Pending? ==> p.heldRequest == Some(status.sequence))
                  && (status.Rejected? ==> p.rejected))
  {
    if |log| > 0 {
      ProgressAgreesWithApprovals(log[..|log| - 1], n);
    }
  }

  /** `n` was passed over: skipped as a dead branch, or cancelled. */
  predicate PassedOver(log: Log, n: NodeId) {
    exists i | 0 <= i < |log| :: (log[i].kind.NodeSkipped? || log[i].kind.NodeCancelled?) && log[i].kind.node == n
  }

  /** The scheduler's flag and the count of completions agree: a node is finished exactly when it was counted
      as completed or passed over. */
  lemma {:induction false} CompletedMeansCounted(log: Log, n: NodeId)
    ensures ProgressOf(log, n).completed <==> Completions(log, n) > 0 || PassedOver(log, n)
  {
    if |log| > 0 {
      var shorter := log[..|log| - 1];
      CompletedMeansCounted(shorter, n);
      assert forall i | 0 <= i < |shorter| :: shorter[i] == log[i];
      assert PassedOver(shorter, n) ==> PassedOver(log, n);
      if PassedOver(log, n) && !PassedOver(shorter, n) {
        var i :| 0 <= i < |log| && (log[i].kind.NodeSkipped? || log[i].kind.NodeCancelled?) && log[i].kind.node == n;
        assert i == |shorter|;
      }
    }
  }

  /** The scheduler gives a node up exactly when a failure that is not retried was recorded. */
  lemma {:induction false} FailedMeansRecorded(log: Log, n: NodeId)
    ensures ProgressOf(log, n).failed <==> exists i | 0 <= i < |log| :: log[i].kind == NodeFailed(n, false)
  {
    if log != [] {
      var shorter, e := log[..|log| - 1], log[|log| - 1];
      FailedMeansRecorded(shorter, n);
      assert forall i | 0 <= i < |shorter| :: shorter[i] == log[i];
      if i :| 0 <= i < |shorter| && shorter[i].kind == NodeFailed(n, false) {
        assert log[i].kind == NodeFailed(n, false);
      }
      if e.kind == NodeFailed(n, false) {
        assert log[|log| - 1].kind == NodeFailed(n, false);
      }
    }
  }

  predicate TakesASlot(e: Event, n: NodeId) {
    (e.kind.NodeScheduled? || e.kind.NodeStarted? || e.kind.RetryScheduled?) && e.kind.node == n
  }

  /** The entry at `j` gives the node's slot back: a failure, or an approval of an open request. */
  predicate FreesTheSlot(log: Log, n: NodeId, j: nat)
    requires j < |log|
  {
    || (log[j].kind.NodeFailed? && log[j].kind.node == n)
    || (log[j].kind.ApprovalReceived? && log[j].kind.node == n && log[j].kind.decision.Approve?
        && ApprovalFold(log[..j], n).Pending?)
  }

  predicate HoldsASlot(log: Log, n: NodeId) {
    exists i | 0 <= i < |log| :: TakesASlot(log[i], n) && forall j | i < j < |log| :: !FreesTheSlot(log, n, j)
  }

  lemma SlotNext(log: Log, e: Event, n: NodeId)
    ensures HoldsASlot(log + [e], n) <==>
            TakesASlot(e, n) || (HoldsASlot(log, n) && !FreesTheSlot(log + [e], n, |log|))
  {
    var longer := log + [e];
    assert longer[|log|] == e;
    forall j | 0 <= j < |log| ensures FreesTheSlot(longer, n, j) <==> FreesTheSlot(log, n, j) {
      assert longer[j] == log[j] && longer[..j] == log[..j];
    }
    if i :| 0 <= i < |longer| && TakesASlot(longer[i], n) && forall j | i < j < |longer| :: !FreesTheSlot(longer, n, j) {
      if i < |log| {
        assert TakesASlot(log[i], n);
      }
    }
    if i :| 0 <= i < |log| && TakesASlot(log[i], n) && forall j | i < j < |log| :: !FreesTheSlot(log, n, j) {
      assert TakesASlot(longer[i], n);
    }
    if TakesASlot(e, n) {
      assert TakesASlot(longer[|log|], n);
    }
  }

  /** An unfinished node is scheduled exactly when some entry put it in a slot and no later one gave the slot
      back; a finished one never is. */
  lemma {:induction false} ScheduledMeansItHoldsASlot(log: Log, n: NodeId)
    ensures var p := ProgressOf(log, n); p.scheduled <==> !p.completed && !p.failed && HoldsASlot(log, n)
  {
    if log != [] {
      var shorter, e := log[..|log| - 1], log[|log| - 1];
      ScheduledMeansItHoldsASlot(shorter, n);
      ProgressAgreesWithApprovals(shorter, n);
      assert shorter + [e] == log && log[..|log| - 1] == shorter;
      SlotNext(shorter, e, n);
    }
  }
}
