/**
 Deciding an approval (runtime/api/src/approvals.rs) and expiring an overdue one
 (runtime/scheduler/src/runner.rs): read the log, check, and append under a condition the backend
 evaluates again, with any number of other deciders, sweeps, requests and cancels in between.
 */
module ApprovalRoutes {
  import opened Wrappers
  import opened Workflow
  import opened EventLog
  import opened Approvals
  import opened Guard
  import opened RunStore
  import opened StoreHistory
  import opened LogEffects
  import opened RunSafety
  import opened Backend
  import opened Routes
  import opened RunRoutes

  datatype SubmitFailure = Checked(error: SubmitError) | BackendFailed

  /** What an acknowledged submission recorded, as the last entry of the run's log: the submitted decision,
      by the submitting principal, on the very request whose binding the decider echoed. */
  ghost predicate Answered(cfg: Config, log: Log, sub: Submission, n: NodeId) {
    && |log| > 0
    && var j := |log| - 1;
    && var kind := log[j].kind;
    && kind.ApprovalReceived? && kind.node == n && kind.decision == sub.decision && kind.principal == sub.principal
    && Sound(cfg, log, j)
    && 0 < kind.answered <= j && log[kind.answered - 1].kind.ToolApprovalRequired?
    && log[kind.answered - 1].kind.node == n
    && var echo := log[kind.answered - 1].kind.request.Echo();
    && (sub.echoed.Some? ==> sub.echoed == echo)
    && (!cfg.devMode && sub.decision.Approve? ==> sub.echoed == echo)
  }

  /** `submit_approval`: an error means this submission wrote nothing at all; success means the decision is
      recorded, still sound at the moment it landed, whatever happened since it was checked. An answer that the
      request expired, or that somebody else was first, is true of the log it was decided on (`read`). */
  method SubmitApproval(b: StateBackend, r: RunId, sub: Submission, w: World)
    returns (reply: Result<NodeId, SubmitFailure>, ghost read: Log)
    requires b.Valid()
    modifies b
    ensures b.Valid() && Later(old(b.State()), b.State())
    ensures reply.Err? ==> b.own == old(b.own)
    ensures reply.Ok? ==> |b.own| == |old(b.own)| + 1 && b.own[|old(b.own)|].RecordDecision?
    ensures reply.Ok? ==> r in b.runs && Answered(b.config, b.runs[r].log, sub, reply.value)
    ensures reply.Ok? && sub.node.Some? ==> Some(reply.value) == sub.node
    ensures forall n :: reply == Err(Checked(SubmitError.Expired(n))) ==>
              read <= LogOf(b.State(), r) && (Lapsed(read, n, w.clock(1)) || Lapsed(read, n, w.clock(3)))
    ensures forall n :: reply == Err(Checked(Superseded(n))) ==>
              read <= LogOf(b.State(), r) && !Lapsed(read, n, w.clock(3))
    ensures sub.hasPatch ==> reply == Err(Checked(EditsUnsupported))
    ensures !sub.hasPatch && !w.fails(0) && old(Terminal(b.State(), r)) ==> reply == Err(Checked(SubmitError.ExecutionTerminal))
    ensures Quiet(w) && !sub.hasPatch && !old(Terminal(b.State(), r)) ==>
              var review := Review(b.config, LogOf(old(b.State()), r), sub, w.clock(1));
              match review
              case Err(error) => reply == Err(Checked(error))
              case Ok(ruling) => reply.Ok? <==> StillOpen(LogOf(old(b.State()), r), ruling.node, ruling.answered, w.clock(2))
  {
    ghost var s0 := b.State();
    LaterIs(s0, s0);
    read := [];
    if sub.hasPatch { return Err(Checked(EditsUnsupported)), read; }
    if w.fails(0) { return Err(BackendFailed), read; }
    var execution := b.GetExecution(r);
    if execution.Some? && execution.value.1.IsTerminal() {
      return Err(Checked(SubmitError.ExecutionTerminal)), read;
    }
    b.Interfere(w.others(1));
    ghost var s1 := b.State();
    if w.fails(1) { return Err(BackendFailed), read; }
    var log := b.GetEvents(r);
    var review := Review(b.config, log, sub, w.clock(1));
    if review.Err? {
      RefusedAsExpired(b.config, log, sub, w.clock(1));
      return Err(Checked(review.error)), log;
    }
    reply, read := AppendReviewed(b, r, sub, review.value, log, w, s1);
    LaterTransitive(s0, s1, b.State());
  }

  lemma RefusedAsExpired(cfg: Config, log: Log, sub: Submission, now: Time)
    requires Review(cfg, log, sub, now).Err?
    ensures forall n :: Review(cfg, log, sub, now) == Err(SubmitError.Expired(n)) ==> Lapsed(log, n, now)
    ensures forall n :: Review(cfg, log, sub, now) != Err(Superseded(n))
  {
    RefusalsAreTrue(cfg, log, sub, now);
    if Review(cfg, log, sub, now).error.Expired? {
      LapsedIff(log, Review(cfg, log, sub, now).error.node, now);
    }
  }

  /** The conditional append, on checks made when the store was `seen`. */
  method AppendReviewed(b: StateBackend, r: RunId, sub: Submission, ruling: Ruling, log: Log, w: World,
                        ghost seen: Store)
    returns (reply: Result<NodeId, SubmitFailure>, ghost read: Log)
    requires b.Valid() && seen == b.State() && log == LogOf(seen, r)
    requires Review(b.config, log, sub, w.clock(1)) == Ok(ruling)
    modifies b
    ensures b.Valid() && Later(seen, b.State())
    ensures reply.Err? ==> b.own == old(b.own)
    ensures reply.Ok? ==> |b.own| == |old(b.own)| + 1 && b.own[|old(b.own)|].RecordDecision?
    ensures reply.Ok? ==> reply.value == ruling.node && r in b.runs && Answered(b.config, b.runs[r].log, sub, ruling.node)
    ensures reply.Ok? && sub.node.Some? ==> Some(reply.value) == sub.node
    ensures reply.Err? && reply.error.Checked? ==>
              || reply.error.error == SubmitError.ExecutionTerminal
              || (&& read <= LogOf(b.State(), r)
                  && reply.error.error == if Lapsed(read, ruling.node, w.clock(3)) then SubmitError.Expired(ruling.node)
                                          else Superseded(ruling.node))
    ensures Quiet(w) && !Terminal(seen, r) ==>
              (reply.Ok? <==> StillOpen(log, ruling.node, ruling.answered, w.clock(2)))
  {
    read := log;
    ReviewIsSound(b.config, log, sub, w.clock(1));
    ReviewedRunExists(b.config, seen, r, ruling, sub.decision, sub.principal);
    b.Interfere(w.others(2));
    ghost var s2 := b.State();
    if w.fails(2) { return Err(BackendFailed), read; }
    ReviewStays(b.config, seen, s2, r, ruling, sub.decision, sub.principal, w.clock(2));
    var result := b.AppendDecision(r, ruling, sub.decision, sub.principal, w.clock(2));
    ghost var s3 := b.State();
    LaterTransitive(seen, s2, s3);
    match result
    case Appended(_) =>
      RunStays(seen, s2, r);
      AnswersWhatWasReviewed(b.config, b.history, seen, s3, r, sub, ruling, w.clock(1), w.clock(2));
      reply := Ok(ruling.node);
    case Refused =>
      var failure;
      failure, read := LateAnswer(b, r, ruling.node, w);
      LaterTransitive(seen, s3, b.State());
      reply := Err(failure);
    case RunEnded(_) => reply := Err(Checked(SubmitError.ExecutionTerminal));
    case NotFound => reply := Err(BackendFailed);
  }

  /** What the loser of a race is told, on the log as it is read once more: that the request ran out of time, or
      that somebody else was first. */
  method LateAnswer(b: StateBackend, r: RunId, n: NodeId, w: World) returns (failure: SubmitFailure, ghost read: Log)
    requires b.Valid()
    modifies b
    ensures b.Valid() && Later(old(b.State()), b.State()) && b.own == old(b.own)
    ensures failure.BackendFailed? <==> w.fails(3)
    ensures failure.Checked? ==>
              && read == LogOf(b.State(), r)
              && failure.error == if Lapsed(read, n, w.clock(3)) then SubmitError.Expired(n) else Superseded(n)
  {
    b.Interfere(w.others(3));
    read := [];
    if w.fails(3) { return BackendFailed, read; }
    var latest := b.GetEvents(r);
    LapsedIff(latest, n, w.clock(3));
    var late := ExpiredByDeadline(latest, n) || PendingButExpired(latest, n, w.clock(3));
    return Checked(if late then SubmitError.Expired(n) else Superseded(n)), latest;
  }

  lemma ReviewedRunExists(cfg: Config, s: Store, r: RunId, ruling: Ruling, decision: Decision,
                          principal: Option<Principal>)
    requires Reviewed(cfg, LogOf(s, r), ruling, decision, principal)
    ensures r in s.runs
  {
    PendingNamesItsRequest(LogOf(s, r), ruling.node);
  }

  lemma ReviewStays(cfg: Config, s: Store, t: Store, r: RunId, ruling: Ruling, decision: Decision,
                    principal: Option<Principal>, now: Time)
    requires Later(s, t) && r in s.runs
    requires Reviewed(cfg, LogOf(s, r), ruling, decision, principal)
    ensures Legal(cfg, t, RecordDecision(r, ruling, decision, principal, now))
  {
    LaterIs(s, t);
    var log := LogOf(s, r);
    assert log[..|log|] == log;
    ReviewIsStable(cfg, s, t, r, |log|, ruling, decision, principal, now);
  }

  /** The request that was read, reviewed and echoed is the request the appended decision names. */
  lemma AnswersWhatWasReviewed(cfg: Config, history: seq<Action>, s: Store, t: Store, r: RunId, sub: Submission,
                               ruling: Ruling, checkedAt: Time, now: Time)
    requires Later(s, t) && r in s.runs && r in t.runs && Reached(cfg, t, history)
    requires Review(cfg, LogOf(s, r), sub, checkedAt) == Ok(ruling)
    requires |t.runs[r].log| > |s.runs[r].log|
    requires t.runs[r].log[|t.runs[r].log| - 1] == Event(DecisionEvent(ruling, sub.decision, sub.principal), now)
    ensures Answered(cfg, t.runs[r].log, sub, ruling.node)
  {
    LaterIs(s, t);
    assert RunExtends(s.runs[r], t.runs[r]);
    ReachedIsSafe(cfg, t, history);
    assert Safe(cfg, t, r);
    var log, longer := s.runs[r].log, t.runs[r].log;
    assert Sound(cfg, longer, |longer| - 1);
    ReviewIsSound(cfg, log, sub, checkedAt);
    PendingNamesItsRequest(log, ruling.node);
    assert longer[ruling.answered - 1] == log[ruling.answered - 1];
  }

  // ---------------------------------------------------------------------------
  // The deadline sweep
  // ---------------------------------------------------------------------------

  /** Once a request is no longer the open one, it never is again. */
  lemma NeverOpenAgain(log: Log, later: Log, n: NodeId, answered: nat)
    requires log <= later && 0 < answered <= |log|
    requires !StillPending(log, n, answered)
    ensures !StillPending(later, n, answered)
  {
    if StillPending(later, n, answered) {
      PendingSinceRequest(later, n, |log|);
      assert later[..|log|] == log;
      assert forall i | 0 <= i < |log| :: later[i] == log[i];
    }
  }

  predicate Settles(s: Store, r: RunId, n: NodeId, answered: nat) {
    Terminal(s, r) || !StillPending(LogOf(s, r), n, answered)
  }

  lemma SettledStays(s: Store, t: Store, r: RunId, n: NodeId, answered: nat)
    requires Later(s, t) && r in s.runs && 0 < answered <= |LogOf(s, r)| && Settles(s, r, n, answered)
    ensures Settles(t, r, n, answered)
  {
    LaterIs(s, t);
    assert RunExtends(s.runs[r], t.runs[r]);
    if !Terminal(s, r) {
      NeverOpenAgain(LogOf(s, r), LogOf(t, r), n, answered);
    }
  }

  predicate Overdue(log: Log, n: NodeId, now: Time) {
    ApprovalFold(log, n).Pending? && OutOfTime(ApprovalFold(log, n).request.expiresAt, now)
  }

  /** The request is inside its deadline, its time to be escalated has come, and it has not been. */
  predicate EscalationDue(log: Log, n: NodeId, now: Time) {
    var status := ApprovalFold(log, n);
    && status.Pending?
    && status.request.expiresAt.At? && now < status.request.expiresAt.at
    && OutOfTime(status.request.escalateAt, now)
    && forall i | 0 <= i < |log| :: log[i].kind != ApprovalEscalated(n, status.sequence)
  }

  predicate Escalated(s: Store, r: RunId, n: NodeId, answered: nat) {
    exists i | 0 <= i < |LogOf(s, r)| :: LogOf(s, r)[i].kind == ApprovalEscalated(n, answered)
  }

  /** What the sweep owes a request it read: an overdue one is not open any more, and one due to be escalated is
      escalated or not open any more, or the run has ended. */
  predicate Handled(s: Store, r: RunId, log: Log, n: NodeId, now: Time)
    requires ApprovalFold(log, n).Pending?
  {
    var answered := ApprovalFold(log, n).sequence;
    && (Overdue(log, n, now) ==> Settles(s, r, n, answered))
    && (EscalationDue(log, n, now) ==> Settles(s, r, n, answered) || Escalated(s, r, n, answered))
  }

  lemma HandledStays(s: Store, t: Store, r: RunId, log: Log, n: NodeId, now: Time)
    requires Later(s, t) && r in s.runs && log <= LogOf(s, r) && ApprovalFold(log, n).Pending?
    requires Handled(s, r, log, n, now)
    ensures Handled(t, r, log, n, now)
  {
    LaterIs(s, t);
    PendingNamesItsRequest(log, n);
    var answered := ApprovalFold(log, n).sequence;
    assert RunExtends(s.runs[r], t.runs[r]);
    if Settles(s, r, n, answered) {
      SettledStays(s, t, r, n, answered);
    }
    if i :| 0 <= i < |LogOf(s, r)| && LogOf(s, r)[i].kind == ApprovalEscalated(n, answered) {
      assert LogOf(t, r)[i] == LogOf(s, r)[i];
    }
  }

  predicate SweepWrite(r: RunId, log: Log, now: Time, a: Action) {
    || (a.RecordExpiry? && a.run == r && Overdue(log, a.node, now) && a.answered == ApprovalFold(log, a.node).sequence)
    || (a.RecordEscalation? && a.run == r && ApprovalFold(log, a.node).Pending?
        && !Overdue(log, a.node, now) && a.answered == ApprovalFold(log, a.node).sequence
        && ApprovalFold(log, a.node).request.escalateAt.Passed(now))
  }

  predicate OnlySweeping(r: RunId, log: Log, now: Time, before: seq<Action>, after: seq<Action>) {
    before <= after && forall k | |before| <= k < |after| :: SweepWrite(r, log, now, after[k])
  }

  /** One due action: expire an overdue request, or escalate one whose escalation time has come. */
  method SweepNode(b: StateBackend, r: RunId, n: NodeId, log: Log, now: Time, w: World, ghost seen: Store)
    returns (failed: bool)
    requires b.Valid() && Later(seen, b.State()) && r in seen.runs && log == LogOf(seen, r)
    requires ApprovalFold(log, n).Pending?
    modifies b
    ensures b.Valid() && Later(old(b.State()), b.State())
    ensures OnlySweeping(r, log, now, old(b.own), b.own)
    ensures !failed ==> Handled(b.State(), r, log, n, now)
    ensures failed <==> w.fails(0)
  {
    ghost var s0 := b.State();
    PendingNamesItsRequest(log, n);
    var request := ApprovalFold(log, n).request;
    var answered := ApprovalFold(log, n).sequence;
    b.Interfere(w.others(0));
    ghost var s1 := b.State();
    LaterTransitive(seen, s0, s1);
    if w.fails(0) { return true; }
    failed := false;
    if request.Expired(now) {
      SweepingOne(r, log, now, b.own, RecordExpiry(r, n, answered, now, w.clock(0)));
      Expire(b, r, n, answered, now, w.clock(0), seen);
      LaterTransitive(s0, s1, b.State());
    } else if request.expiresAt.At? && request.escalateAt.Passed(now) && NotEscalated(log, n, answered) {
      SweepingOne(r, log, now, b.own, RecordEscalation(r, n, answered, w.clock(0)));
      Escalate(b, r, n, answered, w.clock(0), seen);
      LaterTransitive(s0, s1, b.State());
    }
  }

  lemma SweepingOne(r: RunId, log: Log, now: Time, own: seq<Action>, a: Action)
    requires SweepWrite(r, log, now, a)
    ensures OnlySweeping(r, log, now, own, own + [a]) && OnlySweeping(r, log, now, own, own)
  {
  }

  /** The conditional append of an escalation: whichever way it goes, the request is escalated or not open. */
  method Escalate(b: StateBackend, r: RunId, n: NodeId, answered: nat, now: Time, ghost seen: Store)
    requires b.Valid() && Later(seen, b.State()) && r in seen.runs
    modifies b
    ensures b.Valid() && Later(old(b.State()), b.State())
    ensures b.own == old(b.own) || b.own == old(b.own) + [RecordEscalation(r, n, answered, now)]
    ensures Settles(b.State(), r, n, answered) || Escalated(b.State(), r, n, answered)
  {
    ghost var s0 := b.State();
    RunStays(seen, s0, r);
    var result := b.AppendEscalation(r, n, answered, now);
    if result.Appended? {
      var log := b.runs[r].log;
      assert log[|log| - 1].kind == ApprovalEscalated(n, answered);
    }
  }

  /** The conditional append of an expiry: whichever way it goes, the request is not open afterwards. */
  method Expire(b: StateBackend, r: RunId, n: NodeId, answered: nat, sweptAt: Time, now: Time, ghost seen: Store)
    requires b.Valid() && Later(seen, b.State()) && r in seen.runs
    requires var status := ApprovalFold(LogOf(seen, r), n);
             status.Pending? && status.sequence == answered && status.request.Expired(sweptAt)
    modifies b
    ensures b.Valid() && Later(old(b.State()), b.State())
    ensures b.own == old(b.own) || b.own == old(b.own) + [RecordExpiry(r, n, answered, sweptAt, now)]
    ensures Settles(b.State(), r, n, answered)
  {
    ghost var s0 := b.State();
    ExpiryStaysLegal(b.config, seen, s0, r, n, answered, sweptAt, now);
    RunStays(seen, s0, r);
    var result := b.AppendExpiry(r, n, answered, sweptAt, now);
    if result.Appended? {
      ExpiryResolves(LogOf(s0, r), n, answered, now);
    }
  }

  lemma ExpiryResolves(log: Log, n: NodeId, answered: nat, now: Time)
    ensures !StillPending(log + [Event(ApprovalExpired(n, answered), now)], n, answered)
  {
    ApprovalFoldAppend(log, Event(ApprovalExpired(n, answered), now), n);
  }

  lemma ExpiryStaysLegal(cfg: Config, s: Store, t: Store, r: RunId, n: NodeId, answered: nat, sweptAt: Time, now: Time)
    requires Later(s, t) && r in s.runs
    requires var status := ApprovalFold(LogOf(s, r), n);
             status.Pending? && status.sequence == answered && status.request.Expired(sweptAt)
    ensures Legal(cfg, t, RecordExpiry(r, n, answered, sweptAt, now))
  {
    LaterIs(s, t);
    assert RunExtends(s.runs[r], t.runs[r]);
    var k := |LogOf(s, r)|;
    assert LogOf(t, r)[..k] == LogOf(s, r);
  }

  /** `sweep_approval_deadlines`: it records only expiries of requests it read as overdue and escalations it
      read as due, and when no call failed, no request it read as overdue is open in a live run after it, and none
      it read as due for escalation is open in one without having been escalated. */
  method SweepDeadlines(b: StateBackend, r: RunId, now: Time, w: NodeId -> World)
    returns (failed: bool, ghost log: Log)
    requires b.Valid()
    modifies b
    ensures b.Valid() && Later(old(b.State()), b.State())
    ensures log == LogOf(old(b.State()), r)
    ensures OnlySweeping(r, log, now, old(b.own), b.own)
    ensures !failed ==> forall n | Overdue(log, n, now) || EscalationDue(log, n, now) :: Handled(b.State(), r, log, n, now)
    ensures failed ==> exists n :: w(n).fails(0)
  {
    ghost var seen, own0 := b.State(), b.own;
    LaterIs(seen, seen);
    var events := b.GetEvents(r);
    log := events;
    failed := false;
    var due := OpenNodes(events);
    DueIsListed(log, now);
    if due == {} { return; }
    ghost var done: set<NodeId> := {};
    OpenRunExists(seen, r);
    while due != {}
      invariant b.Valid() && Later(seen, b.State())
      invariant OnlySweeping(r, log, now, own0, b.own)
      invariant done + due == OpenNodes(log)
      invariant forall n | n in done :: ApprovalFold(log, n).Pending? && Handled(b.State(), r, log, n, now)
      decreases |due|
    {
      ghost var s0, own1 := b.State(), b.own;
      var n :| n in due;
      due := due - {n};
      ListingAgreesWithStatus(log, n);
      failed := SweepNode(b, r, n, events, now, w(n), seen);
      LaterTransitive(seen, s0, b.State());
      SweepingMore(r, log, now, own0, own1, b.own);
      if failed { return; }
      RunStays(seen, s0, r);
      forall m | m in done ensures Handled(b.State(), r, log, m, now) {
        HandledStays(s0, b.State(), r, log, m, now);
      }
      done := done + {n};
    }
  }

  lemma DueIsListed(log: Log, now: Time)
    ensures forall n | Overdue(log, n, now) || EscalationDue(log, n, now) :: n in OpenNodes(log)
  {
    forall n | Overdue(log, n, now) || EscalationDue(log, n, now) ensures n in OpenNodes(log) {
      ListingAgreesWithStatus(log, n);
    }
  }

  lemma OpenRunExists(s: Store, r: RunId)
    requires OpenNodes(LogOf(s, r)) != {}
    ensures r in s.runs
  {
  }

  lemma SweepingMore(r: RunId, log: Log, now: Time, own: seq<Action>, mid: seq<Action>, end: seq<Action>)
    requires OnlySweeping(r, log, now, own, mid) && OnlySweeping(r, log, now, mid, end)
    ensures OnlySweeping(r, log, now, own, end)
  {
  }
}
