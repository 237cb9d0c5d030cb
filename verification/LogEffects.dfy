/** What each write appends, and to which run's log: the one fact every log invariant starts from. */
module LogEffects {
  import opened Wrappers
  import opened Workflow
  import opened EventLog
  import opened Approvals
  import opened Guard
  import opened RunStore

  function RunOfItem(s: Store, i: ItemId): RunId {
    if i in s.items then s.items[i].run else 0
  }

  /** The run a write may append to. */
  function TouchedRun(s: Store, a: Action): RunId {
    match a
    case ExpireLease(i, _) => RunOfItem(s, i)
    case CommitTurn(_, _, r, _, _, _) => r
    case RaiseRequest(i, _, _) => RunOfItem(s, i)
    case RecordDecision(r, _, _, _, _) => r
    case RecordExpiry(r, _, _, _, _) => r
    case RecordEscalation(r, _, _, _) => r
    case RecordViolation(r, _, _) => r
    case RecordUnknown(r, _) => r
    case FinishExecution(r, _, _) => r
    case FailRejectedNode(r, _, _) => r
    case SkipNode(r, _, _) => r
    case ScheduleNode(r, _, _) => r
    case SweepRecordFailure(r, _, _, _) => r
    case SweepRecordRetry(r, _, _) => r
    case RecordStarted(r, _, _) => r
    case _ => 0
  }

  predicate Expires(s: Store, i: ItemId) {
    && i in s.items && s.items[i].status.Claimed?
    && !Terminal(s, s.items[i].run)
    && s.items[i].attempt + 1 < s.items[i].maxAttempts
  }

  /** The events a write appends to an existing run. */
  function NewEvents(s: Store, a: Action): seq<Event> {
    match a
    case ExpireLease(i, now) =>
      if Expires(s, i)
      then [Event(NodeFailed(s.items[i].node, true), now), Event(RetryScheduled(s.items[i].node), now)] else []
    case CommitTurn(_, _, _, n, outcome, now) => if Commits(s, a) then [Event(OutcomeEvent(n, outcome), now)] else []
    case RaiseRequest(i, request, now) =>
      if i in s.items then [Event(ToolApprovalRequired(s.items[i].node, request), now)] else []
    case RecordDecision(r, ruling, decision, principal, now) =>
      if LiveRun(s, r) && StillOpen(LogOf(s, r), ruling.node, ruling.answered, now)
      then [Event(DecisionEvent(ruling, decision, principal), now)] else []
    case RecordExpiry(r, n, answered, _, now) =>
      if LiveRun(s, r) && StillPending(LogOf(s, r), n, answered) then [Event(ApprovalExpired(n, answered), now)] else []
    case RecordEscalation(r, n, answered, now) =>
      if LiveRun(s, r) && StillPending(LogOf(s, r), n, answered) && NotEscalated(LogOf(s, r), n, answered)
      then [Event(ApprovalEscalated(n, answered), now)] else []
    case RecordViolation(_, n, now) => [Event(PolicyViolation(n), now)]
    case RecordUnknown(_, now) => [Event(Unknown, now)]
    case FinishExecution(r, status, now) =>
      if LiveRun(s, r) && status.IsTerminal() then [Event(EndEvent(status), now)] else []
    case FailRejectedNode(_, n, now) => [Event(NodeFailed(n, false), now)]
    case SkipNode(_, n, now) => [Event(NodeSkipped(n), now)]
    case ScheduleNode(_, n, now) => [Event(NodeScheduled(n), now)]
    case SweepRecordFailure(_, n, retryable, now) => [Event(NodeFailed(n, retryable), now)]
    case SweepRecordRetry(_, n, now) => [Event(RetryScheduled(n), now)]
    case RecordStarted(_, n, now) => [Event(NodeStarted(n), now)]
    case _ => []
  }

  function StatusAfter(s: Store, a: Action, r: RunId): WorkflowStatus
    requires r in s.runs
  {
    match a
    case FinishExecution(q, status, _) =>
      if q == r && LiveRun(s, r) && status.IsTerminal() then status else s.runs[r].status
    case ResumeRun(q) => if q == r then Running else s.runs[r].status
    case _ => s.runs[r].status
  }

  predicate Starts(s: Store, a: Action) {
    a.StartExecution? && a.run !in s.runs && a.item !in s.items && a.key in s.workflows
  }

  predicate RunIsAfter(s: Store, a: Action, r: RunId)
    requires r in s.runs
  {
    && r in Apply(s, a).runs
    && var run := Apply(s, a).runs[r];
    && run.workflow == s.runs[r].workflow
    && run.status == StatusAfter(s, a, r)
    && run.log == s.runs[r].log + (if r == TouchedRun(s, a) then NewEvents(s, a) else [])
  }

  lemma RunAfterExpiry(s: Store, a: Action, r: RunId)
    requires r in s.runs && a.ExpireLease?
    ensures RunIsAfter(s, a, r)
  {
  }

  lemma RunAfterCommit(s: Store, a: Action, r: RunId)
    requires r in s.runs && a.CommitTurn?
    ensures RunIsAfter(s, a, r)
  {
  }

  lemma RunAfterAppendIf(s: Store, a: Action, r: RunId)
    requires r in s.runs && (a.RecordDecision? || a.RecordExpiry? || a.RecordEscalation? || a.FinishExecution?)
    ensures RunIsAfter(s, a, r)
  {
  }

  predicate AppendsAlways(a: Action) {
    || a.RaiseRequest? || a.RecordViolation? || a.RecordUnknown? || a.FailRejectedNode? || a.ScheduleNode?
    || a.SweepRecordFailure? || a.SweepRecordRetry? || a.SkipNode? || a.RecordStarted?
  }

  lemma RunAfterAppend(s: Store, a: Action, r: RunId)
    requires r in s.runs && AppendsAlways(a)
    ensures RunIsAfter(s, a, r)
  {
    if a.RaiseRequest? || a.ScheduleNode? {
      RunAfterRequest(s, a, r);
    } else {
      RunAfterPlainAppend(s, a, r);
    }
  }

  lemma RunAfterRequest(s: Store, a: Action, r: RunId)
    requires r in s.runs && (a.RaiseRequest? || a.ScheduleNode?)
    ensures RunIsAfter(s, a, r)
  {
  }

  lemma RunAfterPlainAppend(s: Store, a: Action, r: RunId)
    requires r in s.runs && AppendsAlways(a) && !a.RaiseRequest? && !a.ScheduleNode?
    ensures RunIsAfter(s, a, r)
  {
  }

  lemma RunAfterOther(s: Store, a: Action, r: RunId)
    requires r in s.runs && !AppendsAlways(a) && !a.ExpireLease? && !a.CommitTurn?
    requires !a.RecordDecision? && !a.RecordExpiry? && !a.RecordEscalation? && !a.FinishExecution?
    ensures RunIsAfter(s, a, r)
  {
  }

  /** An existing run after a write: its log with exactly the write's events at the end. */
  lemma RunAfter(s: Store, a: Action, r: RunId)
    requires r in s.runs
    ensures RunIsAfter(s, a, r)
  {
    if a.ExpireLease? {
      RunAfterExpiry(s, a, r);
    } else if a.CommitTurn? {
      RunAfterCommit(s, a, r);
    } else if a.RecordDecision? || a.RecordExpiry? || a.RecordEscalation? || a.FinishExecution? {
      RunAfterAppendIf(s, a, r);
    } else if AppendsAlways(a) {
      RunAfterAppend(s, a, r);
    } else {
      RunAfterOther(s, a, r);
    }
  }

  lemma AppendsCreateNoRun(s: Store, a: Action, r: RunId)
    requires AppendsAlways(a) || a.RecordDecision? || a.RecordExpiry? || a.RecordEscalation? || a.FinishExecution?
    ensures r in Apply(s, a).runs ==> r in s.runs
  {
  }

  lemma CommitCreatesNoRun(s: Store, a: Action, r: RunId)
    requires a.CommitTurn? || a.ExpireLease?
    ensures r in Apply(s, a).runs ==> r in s.runs
  {
  }

  lemma RestCreatesNoRun(s: Store, a: Action, r: RunId)
    requires !AppendsAlways(a) && !a.RecordDecision? && !a.RecordExpiry? && !a.RecordEscalation? && !a.FinishExecution?
    requires !a.CommitTurn? && !a.ExpireLease? && !a.StartExecution?
    ensures r in Apply(s, a).runs ==> r in s.runs
  {
  }

  /** A run a write brings into being. */
  lemma RunCreated(s: Store, a: Action, r: RunId)
    requires r in Apply(s, a).runs && r !in s.runs
    ensures Starts(s, a) && a.run == r
    ensures Apply(s, a).runs[r] == Run(a.key, Running, [Event(WorkflowStarted(a.initiator), a.now),
                                                       Event(NodeScheduled(s.workflows[a.key].start), a.now)])
  {
    if !a.StartExecution? {
      if AppendsAlways(a) || a.RecordDecision? || a.RecordExpiry? || a.RecordEscalation? || a.FinishExecution? {
        AppendsCreateNoRun(s, a, r);
      } else if a.CommitTurn? || a.ExpireLease? {
        CommitCreatesNoRun(s, a, r);
      } else {
        RestCreatesNoRun(s, a, r);
      }
    }
  }
}
