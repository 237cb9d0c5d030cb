/**
 The checks an approval decision passes before it is appended (runtime/api/src/approvals.rs), as a
 function of the log that was read, and the listing built from the same log.

 Reading, checking and appending are separate steps of the handler; this module is the middle one.
 */
module Approvals {
  import opened Wrappers
  import opened EventLog

  datatype Config = Config(devMode: bool, allowSelfApproval: bool)

  /** One submitted decision. An empty node name counts as none; `hasPatch` says a non-null
      `state_patch` was sent. */
  datatype Submission = Submission(
    node: Option<NodeId>,
    principal: Option<Principal>,
    decision: Decision,
    hasPatch: bool,
    echoed: Option<Binding>)

  datatype SubmitError =
    | NoPending
    | MultiplePending(nodes: set<NodeId>)
    | NodeNotPending(node: NodeId)
    | ExecutionTerminal
    | SelfApproval
    | InitiatorUnknown
    | StaleDigest
    | DigestRequired
    | PrincipalMissing
    | EditsUnsupported
    | Expired(node: NodeId)
    | UnreadableLog
    | Superseded(node: NodeId)

  /** What passed the checks: the node, the request answered, and the digest the approval carries. */
  datatype Ruling = Ruling(node: NodeId, answered: nat, digest: Option<Binding>)

  function OpenNodes(log: Log): set<NodeId> {
    var slots := PendingSlots(log);
    set n | n in slots && slots[n].Some?
  }

  /** The latest request for `n`, whatever became of it. */
  function LatestRequest(log: Log, n: NodeId): Option<(nat, Request)> {
    if |log| == 0 then None
    else
      match log[|log| - 1].kind
      case ToolApprovalRequired(m, request) =>
        if m == n then Some((|log|, request)) else LatestRequest(log[..|log| - 1], n)
      case _ => LatestRequest(log[..|log| - 1], n)
  }

  lemma {:induction false} LatestIs(log: Log, n: NodeId, q: nat)
    requires q < |log| && AsksFor(log[q], n) && forall k | q < k < |log| :: !AsksFor(log[k], n)
    ensures LatestRequest(log, n) == Some((q + 1, log[q].kind.request))
  {
    if q < |log| - 1 {
      LatestIs(log[..|log| - 1], n, q);
    }
  }

  function LatestRequestedNode(log: Log): Option<NodeId> {
    if |log| == 0 then None
    else
      match log[|log| - 1].kind
      case ToolApprovalRequired(m, _) => Some(m)
      case _ => LatestRequestedNode(log[..|log| - 1])
  }

  /** `answered_request`: the latest request, when the node's status is a decision. */
  function AnsweredRequest(log: Log, n: NodeId): Option<(nat, Request)> {
    var status := NodeApprovalStatus(log, n);
    if status.Approved? || status.Rejected? then LatestRequest(log, n) else None
  }

  /** A pending node is pending on its latest request, and an approved one was approved on it. */
  lemma {:induction false} DecisionIsOnTheLatest(log: Log, n: NodeId)
    ensures var status := ApprovalFold(log, n);
            && (status.Pending? ==> LatestRequest(log, n) == Some((status.sequence, status.request)))
            && (status.Approved? ==>
                  && 0 < status.sequence <= |log|
                  && var before := ApprovalFold(log[..status.sequence - 1], n);
                  && before.Pending? && LatestRequest(log, n) == Some((before.sequence, before.request)))
  {
    if |log| > 0 {
      var shorter := log[..|log| - 1];
      DecisionIsOnTheLatest(shorter, n);
      var status := ApprovalFold(log, n);
      if status.Approved? && status.sequence < |log| {
        assert shorter[..status.sequence - 1] == log[..status.sequence - 1];
      }
    }
  }

  predicate ExpiredByDeadline(log: Log, n: NodeId) {
    var answered := AnsweredRequest(log, n);
    answered.Some?
    && exists i | 0 <= i < |log| :: log[i].kind == ApprovalExpired(n, answered.value.0)
  }

  /** The answer at `j` to the node's latest request `q` is the node's status, and `q` is what it answers. */
  lemma AnsweredIs(log: Log, n: NodeId, q: nat, j: nat)
    requires Readable(log) && q < j < |log| && AnsweredAt(log, n, q, j)
    ensures NodeApprovalStatus(log, n) == AnswerAt(log, j)
    ensures AnsweredRequest(log, n) == Some((q + 1, log[q].kind.request))
  {
    assert AnsweredAs(log, n, q, j, AnswerAt(log, j));
    StatusIs(log, n, AnswerAt(log, j));
    LatestIs(log, n, q);
  }

  lemma OpenIs(log: Log, n: NodeId, q: nat)
    requires Readable(log) && q < |log| && OpenUntil(log, n, q, |log|)
    ensures NodeApprovalStatus(log, n) == Pending(q + 1, log[q].kind.request)
  {
    var status := Pending(q + 1, log[q].kind.request);
    assert OpenAs(log, n, q, status);
    StatusIs(log, n, status);
  }

  /** The condition every append that resolves a request is made under. */
  predicate StillPending(log: Log, n: NodeId, answered: nat) {
    var status := NodeApprovalStatus(log, n);
    status.Pending? && status.sequence == answered
  }

  /** The condition a human decision is appended under. */
  predicate StillOpen(log: Log, n: NodeId, answered: nat, now: Time) {
    var status := NodeApprovalStatus(log, n);
    status.Pending? && status.sequence == answered && !status.request.Expired(now)
  }

  predicate PendingButExpired(log: Log, n: NodeId, now: Time) {
    var status := NodeApprovalStatus(log, n);
    status.Pending? && status.request.Expired(now)
  }

  /** The node's latest request ran out of time: its expiry is in the log and it is not open, or it is open past
      its deadline, or with a deadline nobody can read. */
  predicate Lapsed(log: Log, n: NodeId, now: Time) {
    && Readable(log)
    && (|| (exists q, j | 0 <= q < j < |log| ::
              AnsweredAt(log, n, q, j) && exists i | 0 <= i < |log| :: log[i].kind == ApprovalExpired(n, q + 1))
        || (exists q | 0 <= q < |log| :: OpenUntil(log, n, q, |log|) && OutOfTime(log[q].kind.request.expiresAt, now)))
  }

  predicate OutOfTime(deadline: DeadlineTime, now: Time) {
    deadline == Unreadable || (deadline.At? && deadline.at <= now)
  }

  lemma LapsedIff(log: Log, n: NodeId, now: Time)
    ensures HasExpired(log, n, now) <==> Lapsed(log, n, now)
  {
    var status := NodeApprovalStatus(log, n);
    StatusIs(log, n, status);
    ListingAgreesWithStatus(log, n);
    if Readable(log) && status.Pending? {
      var q :| 0 <= q < |log| && OpenAs(log, n, q, status);
      PendingLapsedIff(log, n, q, now);
    } else if Readable(log) && (status.Approved? || status.Rejected?) {
      var q, j :| 0 <= q < j < |log| && AnsweredAs(log, n, q, j, status);
      AnsweredLapsedIff(log, n, q, j, now);
    } else if Lapsed(log, n, now) {
      LapsedHasStatus(log, n, now);
    }
  }

  lemma PendingLapsedIff(log: Log, n: NodeId, q: nat, now: Time)
    requires Readable(log) && q < |log| && OpenUntil(log, n, q, |log|)
    ensures HasExpired(log, n, now) <==> Lapsed(log, n, now)
  {
    OpenIs(log, n, q);
    forall o, j | 0 <= o < j < |log| && AnsweredAt(log, n, o, j) ensures false { AnsweredIs(log, n, o, j); }
    forall o | 0 <= o < |log| && OpenUntil(log, n, o, |log|) ensures o == q { OpenIs(log, n, o); }
  }

  lemma AnsweredLapsedIff(log: Log, n: NodeId, q: nat, j: nat, now: Time)
    requires Readable(log) && q < j < |log| && AnsweredAt(log, n, q, j)
    ensures HasExpired(log, n, now) <==> Lapsed(log, n, now)
  {
    AnsweredIs(log, n, q, j);
    forall o, k | 0 <= o < k < |log| && AnsweredAt(log, n, o, k) ensures o == q { AnsweredIs(log, n, o, k); }
    forall o | 0 <= o < |log| && OpenUntil(log, n, o, |log|) ensures false { OpenIs(log, n, o); }
  }

  lemma LapsedHasStatus(log: Log, n: NodeId, now: Time)
    requires Lapsed(log, n, now)
    ensures !NodeApprovalStatus(log, n).NotRequested? && !NodeApprovalStatus(log, n).Indeterminate?
  {
    if q, j :| 0 <= q < j < |log| && AnsweredAt(log, n, q, j) {
      AnsweredIs(log, n, q, j);
    } else {
      var q :| 0 <= q < |log| && OpenUntil(log, n, q, |log|);
      OpenIs(log, n, q);
    }
  }

  predicate NotEscalated(log: Log, n: NodeId, answered: nat) {
    forall i | 0 <= i < |log| :: log[i].kind != ApprovalEscalated(n, answered)
  }

  // ---------------------------------------------------------------------------
  // The checks, in the order the handler makes them
  // ---------------------------------------------------------------------------

  lemma OnlyElement<T>(s: set<T>, x: T, y: T)
    requires |s| == 1 && x in s && y in s
    ensures x == y
  {
    assert s - {x} == {} by {
      assert |s - {x}| == 0;
    }
    assert y !in s - {x};
  }

  function ChooseNode(log: Log, named: Option<NodeId>): Result<NodeId, SubmitError> {
    var open := OpenNodes(log);
    match named
    case Some(n) =>
      if n in open then Ok(n)
      else if ExpiredByDeadline(log, n) then Err(Expired(n))
      else Err(NodeNotPending(n))
    case None =>
      if |open| == 0 then
        match LatestRequestedNode(log)
        case Some(n) => if ExpiredByDeadline(log, n) then Err(Expired(n)) else Err(NoPending)
        case None => Err(NoPending)
      else if |open| == 1 then
        assert open != {};
        assert forall x, y | x in open && y in open :: x == y by {
          forall x, y | x in open && y in open ensures x == y { OnlyElement(open, x, y); }
        }
        var n :| n in open; Ok(n)
      else Err(MultiplePending(open))
  }

  /** Separation of duties: who may approve, given the run's recorded initiator. */
  function DutyError(cfg: Config, initiator: Option<Principal>, principal: Option<Principal>): Option<SubmitError> {
    if cfg.allowSelfApproval then None
    else if initiator.Some? && principal.Some? && initiator == principal then Some(SelfApproval)
    else if initiator.None? && !cfg.devMode then Some(InitiatorUnknown)
    else None
  }

  function Review(cfg: Config, log: Log, sub: Submission, now: Time): Result<Ruling, SubmitError> {
    if HasUnreadable(log) then Err(UnreadableLog)
    else
      var chosen := ChooseNode(log, sub.node);
      if chosen.Err? then Err(chosen.error)
      else
        var n := chosen.value;
        var duty := DutyError(cfg, RunInitiator(log), sub.principal);
        if !cfg.devMode && sub.principal.None? then Err(PrincipalMissing)
        else if sub.decision.Approve? && duty.Some? then Err(duty.value)
        else
          var slots := PendingSlots(log);
          if n !in slots || slots[n].None? then Err(NodeNotPending(n))
          else
            var (sequence, request) := slots[n].value;
            if request.Expired(now) then Err(Expired(n))
            else if !cfg.devMode && sub.decision.Approve? && request.Echo().Some? && sub.echoed.None? then
              Err(DigestRequired)
            else if sub.echoed.Some? && sub.echoed != request.Echo() then Err(StaleDigest)
            else Ok(Ruling(n, sequence, if sub.decision.Approve? then request.actionDigest else None))
  }

  /** What a passed review established about the log it read. Nothing here depends on the clock or on
      what the submission echoed. */
  predicate Reviewed(cfg: Config, log: Log, ruling: Ruling, decision: Decision, principal: Option<Principal>) {
    var status := NodeApprovalStatus(log, ruling.node);
    && status.Pending?
    && status.sequence == ruling.answered
    && ruling.digest == (if decision.Approve? then status.request.actionDigest else None)
    && (!cfg.devMode ==> principal.Some?)
    && (decision.Approve? ==> DutyError(cfg, RunInitiator(log), principal).None?)
  }

  /** A submission that names its node passes exactly when the log is readable, the node is pending,
      the request is inside its deadline, the decider is known and independent, and the binding it
      echoes (which an approval outside dev mode must) is the request's own. */
  lemma NamedReviewPassesIff(cfg: Config, log: Log, sub: Submission, now: Time, n: NodeId)
    requires sub.node == Some(n)
    ensures Review(cfg, log, sub, now).Ok? <==>
            var status := NodeApprovalStatus(log, n);
            && status.Pending?
            && var request := status.request;
            && (request.expiresAt == Unset || (request.expiresAt.At? && now < request.expiresAt.at))
            && (!cfg.devMode ==> sub.principal.Some?)
            && (sub.decision.Approve? && !cfg.allowSelfApproval ==>
                  && (RunInitiator(log).None? ==> cfg.devMode)
                  && !(sub.principal.Some? && RunInitiator(log) == sub.principal))
            && var binding := if request.actionDigest.Some? then request.actionDigest else request.callsHash;
            && (sub.echoed.Some? ==> sub.echoed == binding)
            && (!cfg.devMode && sub.decision.Approve? ==> sub.echoed == binding)
  {
    ListingAgreesWithStatus(log, n);
  }

  /** Whatever node the submission resolves to, a ruling is sound for the log that was read; with no
      node named it resolves only when exactly one node is pending. */
  lemma ReviewIsSound(cfg: Config, log: Log, sub: Submission, now: Time)
    ensures var r := Review(cfg, log, sub, now);
            r.Ok? ==>
              && Reviewed(cfg, log, r.value, sub.decision, sub.principal)
              && !NodeApprovalStatus(log, r.value.node).request.Expired(now)
              && (sub.node.Some? ==> r.value.node == sub.node.value)
              && (sub.node.None? ==> OpenNodes(log) == {r.value.node})
              && var echo := NodeApprovalStatus(log, r.value.node).request.Echo();
              && (sub.echoed.Some? ==> sub.echoed == echo)
              && (!cfg.devMode && sub.decision.Approve? ==> sub.echoed == echo)
  {
    var r := Review(cfg, log, sub, now);
    if r.Ok? {
      ListingAgreesWithStatus(log, r.value.node);
      if sub.node.None? {
        var open := OpenNodes(log);
        forall x | x in open ensures x == r.value.node {
          OnlyElement(open, x, r.value.node);
        }
      }
    }
  }

  /** Naming no node is naming the only pending one, when there is exactly one; otherwise nothing passes. */
  lemma NamelessIsTheOnlyOne(cfg: Config, log: Log, sub: Submission, now: Time, n: NodeId)
    requires sub.node.None?
    ensures OpenNodes(log) == {n} ==> Review(cfg, log, sub, now) == Review(cfg, log, sub.(node := Some(n)), now)
    ensures Review(cfg, log, sub, now).Ok? ==> |OpenNodes(log)| == 1
  {
    var open := OpenNodes(log);
    if open == {n} {
      assert ChooseNode(log, None) == Ok(n);
    }
  }

  /** A request of `n` has expired: its expiry is recorded as the answer, or it is open past its deadline. */
  predicate HasExpired(log: Log, n: NodeId, now: Time) {
    ExpiredByDeadline(log, n) || PendingButExpired(log, n, now)
  }

  /** What a refusal claims, of the log that was read, the submission and the clock. */
  ghost predicate Claims(error: SubmitError, cfg: Config, log: Log, sub: Submission, now: Time) {
    match error
    case UnreadableLog => HasUnreadable(log)
    case NoPending =>
      sub.node.None? && OpenNodes(log) == {} && forall n | AskedLast(log, n) :: !Lapsed(log, n, now)
    case MultiplePending(nodes) => sub.node.None? && nodes == OpenNodes(log) && |nodes| > 1
    case NodeNotPending(n) => sub.node == Some(n) && !NodeApprovalStatus(log, n).Pending? && !Lapsed(log, n, now)
    case Expired(n) =>
      Lapsed(log, n, now) && if sub.node.Some? then sub.node == Some(n) else OpenNodes(log) == {n} || AskedLast(log, n)
    case PrincipalMissing => !cfg.devMode && sub.principal.None?
    case SelfApproval =>
      sub.decision.Approve? && !cfg.allowSelfApproval && sub.principal.Some? && RunInitiator(log) == sub.principal
    case InitiatorUnknown =>
      sub.decision.Approve? && !cfg.allowSelfApproval && !cfg.devMode && RunInitiator(log).None?
    case DigestRequired => !cfg.devMode && sub.decision.Approve? && sub.echoed.None?
    case StaleDigest =>
      sub.echoed.Some? && exists m | m in OpenNodes(log) ::
        NodeApprovalStatus(log, m).Pending? && NodeApprovalStatus(log, m).request.Echo() != sub.echoed
    case _ => false
  }

  /** Every refusal of the checks is true, and the checks refuse for no other reason than these. */
  lemma RefusalsAreTrue(cfg: Config, log: Log, sub: Submission, now: Time)
    requires Review(cfg, log, sub, now).Err?
    ensures Claims(Review(cfg, log, sub, now).error, cfg, log, sub, now)
  {
    if !HasUnreadable(log) {
      var chosen := ChooseNode(log, sub.node);
      if chosen.Ok? {
        ListingAgreesWithStatus(log, chosen.value);
        LapsedIff(log, chosen.value, now);
        if sub.node.None? { OnlyOpen(log, chosen.value); }
      } else if sub.node.Some? {
        ListingAgreesWithStatus(log, sub.node.value);
        LapsedIff(log, sub.node.value, now);
      } else {
        NamelessRefusal(log, now);
      }
    }
  }

  lemma OnlyOpen(log: Log, n: NodeId)
    requires |OpenNodes(log)| == 1 && n in OpenNodes(log)
    ensures OpenNodes(log) == {n}
  {
    forall x | x in OpenNodes(log) ensures x == n { OnlyElement(OpenNodes(log), x, n); }
  }

  /** `n` is the node of the latest request in the log, of whatever node. */
  predicate AskedLast(log: Log, n: NodeId) {
    exists q | 0 <= q < |log| :: AsksFor(log[q], n) && forall k | q < k < |log| :: !log[k].kind.ToolApprovalRequired?
  }

  lemma {:induction false} AskedLastIff(log: Log, n: NodeId)
    ensures LatestRequestedNode(log) == Some(n) <==> AskedLast(log, n)
  {
    if log != [] {
      var shorter, last := log[..|log| - 1], log[|log| - 1];
      AskedLastIff(shorter, n);
      if last.kind.ToolApprovalRequired? {
        assert last.kind.node == n ==> AsksFor(log[|log| - 1], n);
      } else {
        AskedBefore(log, n);
      }
    }
  }

  lemma AskedBefore(log: Log, n: NodeId)
    requires log != [] && !log[|log| - 1].kind.ToolApprovalRequired?
    ensures AskedLast(log, n) <==> AskedLast(log[..|log| - 1], n)
  {
    var shorter := log[..|log| - 1];
    if q :| 0 <= q < |log| && AsksFor(log[q], n) && forall k | q < k < |log| :: !log[k].kind.ToolApprovalRequired? {
      assert AsksFor(shorter[q], n);
    }
    if q :| 0 <= q < |shorter| && AsksFor(shorter[q], n)
            && forall k | q < k < |shorter| :: !shorter[k].kind.ToolApprovalRequired? {
      assert AsksFor(log[q], n);
    }
  }

  /** With no node named and none, or several, pending. */
  lemma NamelessRefusal(log: Log, now: Time)
    requires Readable(log) && |OpenNodes(log)| != 1
    ensures var refused := ChooseNode(log, None);
            && refused.Err?
            && (|OpenNodes(log)| > 1 ==> refused.error == MultiplePending(OpenNodes(log)))
            && (OpenNodes(log) == {} ==>
                  || (refused.error.Expired? && AskedLast(log, refused.error.node) && Lapsed(log, refused.error.node, now))
                  || (refused.error.NoPending? && forall n | AskedLast(log, n) :: !Lapsed(log, n, now)))
  {
    if OpenNodes(log) == {} {
      forall n | AskedLast(log, n) ensures LatestRequestedNode(log) == Some(n) { AskedLastIff(log, n); }
      match LatestRequestedNode(log)
      case None =>
      case Some(n) =>
        AskedLastIff(log, n);
        ListingAgreesWithStatus(log, n);
        LapsedIff(log, n, now);
        assert n !in OpenNodes(log);
        assert !NodeApprovalStatus(log, n).Pending?;
        assert Lapsed(log, n, now) <==> ExpiredByDeadline(log, n);
    }
  }

  /** A submission that names its node, in full: the first of these checks that fails is the answer. */
  lemma NamedReviewIs(cfg: Config, log: Log, sub: Submission, now: Time, n: NodeId)
    requires sub.node == Some(n)
    ensures var status := NodeApprovalStatus(log, n);
            var initiator := RunInitiator(log);
            Review(cfg, log, sub, now)
            == if !Readable(log) then Err(UnreadableLog)
               else if !status.Pending? then Err(if Lapsed(log, n, now) then Expired(n) else NodeNotPending(n))
               else if sub.principal.None? && !cfg.devMode then Err(PrincipalMissing)
               else if sub.decision.Approve? && !cfg.allowSelfApproval && sub.principal.Some? && initiator == sub.principal
                 then Err(SelfApproval)
               else if sub.decision.Approve? && !cfg.allowSelfApproval && initiator.None? && !cfg.devMode
                 then Err(InitiatorUnknown)
               else
                 var request := status.request;
                 var binding := if request.actionDigest.Some? then request.actionDigest else request.callsHash;
                 if OutOfTime(request.expiresAt, now) then Err(Expired(n))
                 else if sub.decision.Approve? && !cfg.devMode && binding.Some? && sub.echoed.None? then Err(DigestRequired)
                 else if sub.echoed.Some? && sub.echoed != binding then Err(StaleDigest)
                 else Ok(Ruling(n, status.sequence, if sub.decision.Approve? then request.actionDigest else None))
  {
    ListingAgreesWithStatus(log, n);
    LapsedIff(log, n, now);
    assert Readable(log) <==> !HasUnreadable(log);
  }

  /** The conditions of the conditional appends, said of the entries. */
  lemma StillPendingIff(log: Log, n: NodeId, answered: nat)
    ensures StillPending(log, n, answered) <==>
            Readable(log) && 0 < answered <= |log| && OpenUntil(log, n, answered - 1, |log|)
  {
    var status := NodeApprovalStatus(log, n);
    StatusIs(log, n, status);
    if Readable(log) && 0 < answered <= |log| && OpenUntil(log, n, answered - 1, |log|) {
      OpenIs(log, n, answered - 1);
    }
  }

  lemma StillOpenIff(log: Log, n: NodeId, answered: nat, now: Time)
    ensures StillOpen(log, n, answered, now) <==>
            && Readable(log) && 0 < answered <= |log| && OpenUntil(log, n, answered - 1, |log|)
            && !OutOfTime(log[answered - 1].kind.request.expiresAt, now)
  {
    StillPendingIff(log, n, answered);
    if StillPending(log, n, answered) {
      OpenIs(log, n, answered - 1);
    }
  }

  // ---------------------------------------------------------------------------
  // The listing of decided approvals
  // ---------------------------------------------------------------------------

  predicate EverRequested(log: Log, n: NodeId) {
    exists i | 0 <= i < |log| :: log[i].kind.ToolApprovalRequired? && log[i].kind.node == n
  }

  lemma {:induction false} RequestedMeansListed(log: Log, n: NodeId)
    ensures EverRequested(log, n) <==> n in PendingSlots(log)
  {
    if |log| > 0 {
      var shorter := log[..|log| - 1];
      RequestedMeansListed(shorter, n);
      assert forall i | 0 <= i < |shorter| :: shorter[i] == log[i];
      if n in PendingSlots(log) && n in PendingSlots(shorter) {
        var i :| 0 <= i < |shorter| && shorter[i].kind.ToolApprovalRequired? && shorter[i].kind.node == n;
        assert log[i] == shorter[i];
      }
    }
  }

  /** The view lists a requested node that is not pending as decided. Its status really is a decision
      exactly when the log holds no event this build cannot read; otherwise the view's fallback entry
      `unknown`, which its comment calls unreachable, is what every such node gets. */
  lemma DecidedListingIsADecision(log: Log, n: NodeId)
    requires EverRequested(log, n) && n !in OpenNodes(log)
    ensures var status := NodeApprovalStatus(log, n);
            && (status.Approved? || status.Rejected? <==> !HasUnreadable(log))
            && (status.Indeterminate? <==> HasUnreadable(log))
  {
    RequestedMeansListed(log, n);
    ListingAgreesWithStatus(log, n);
  }
}
