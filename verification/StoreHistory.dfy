/**
 What no write ever undoes: logs only grow, a registered workflow version and an item's coordinates
 never change, epochs only rise, a settled item stays settled. This is what makes a check made on an
 earlier read still mean something when the write that relied on it lands.
 */
module StoreHistory {
  import opened Wrappers
  import opened Workflow
  import opened EventLog
  import opened Fences
  import opened Approvals
  import opened Guard
  import opened RunStore

  predicate ItemWellFormed(s: Store, i: ItemId)
    requires i in s.items
  {
    var it := s.items[i];
    && it.run in s.runs
    && it.epoch < EPOCHS
    && (it.status.Claimed? ==> FenceEpoch(it.fence) == it.epoch && it.claimedAt <= |s.runs[it.run].log|)
    && (it.status.Queued? ==> it.worker.None?)
  }

  predicate WellFormed(s: Store) {
    && (forall i | i in s.items :: ItemWellFormed(s, i))
    && (forall r | r in s.runs :: s.runs[r].workflow in s.workflows)
  }

  /** What a change of an item's row says about the lease it had: without a new epoch the lease is the same
      one, and the only way back into the queue is to lose it, which raises the epoch by one. */
  predicate LeaseExtends(it: Item, later: Item) {
    && (later.epoch == it.epoch ==> later.heldSince == it.heldSince)
    && (later.epoch == it.epoch && it.status.Queued? && later.status.Queued? ==> later.lastLease == it.lastLease)
    && (it.status.Claimed? && later.status.Queued? ==> it.epoch < later.epoch)
    && (it.status.Claimed? && later.status.Queued? && later.epoch == it.epoch + 1 ==>
          && later.heldSince == it.heldSince
          && (later.lastLease.Some? ==> later.lastLease.value.1 == it.fence))
    && (it.status.Queued? && later.status.Queued? ==> later.epoch != it.epoch + 1)
  }

  predicate ItemExtends(it: Item, later: Item) {
    && LeaseExtends(it, later)
    && later.run == it.run && later.node == it.node && later.payload == it.payload
    && later.maxAttempts == it.maxAttempts
    && it.epoch <= later.epoch
    && (it.status.Settled() ==> later.status.Settled())
    && (later.epoch == it.epoch && later.status.Claimed? ==>
          it.status.Claimed? && later.claimedAt == it.claimedAt && later.fence == it.fence)
  }

  predicate RunExtends(run: Run, later: Run) {
    later.workflow == run.workflow && run.log <= later.log
  }

  predicate Extends(s: Store, t: Store) {
    && (forall key | key in s.workflows :: key in t.workflows && t.workflows[key] == s.workflows[key])
    && (forall r | r in s.runs :: r in t.runs && RunExtends(s.runs[r], t.runs[r]))
    && (forall i | i in s.items :: i in t.items && ItemExtends(s.items[i], t.items[i]))
    && s.granted <= t.granted
    && s.term <= t.term
  }

  lemma ExtendsTransitive(s: Store, t: Store, u: Store)
    requires Extends(s, t) && Extends(t, u)
    ensures Extends(s, u)
  {
    forall i | i in s.items ensures i in u.items && ItemExtends(s.items[i], u.items[i]) {
      assert ItemExtends(s.items[i], t.items[i]) && ItemExtends(t.items[i], u.items[i]);
    }
    forall r | r in s.runs ensures r in u.runs && RunExtends(s.runs[r], u.runs[r]) {
      assert RunExtends(s.runs[r], t.runs[r]) && RunExtends(t.runs[r], u.runs[r]);
    }
  }

  lemma AppendExtends(s: Store, r: RunId, kind: EventKind, now: Time)
    requires WellFormed(s)
    ensures WellFormed(Append(s, r, kind, now)) && Extends(s, Append(s, r, kind, now))
  {
    var t := Append(s, r, kind, now);
    forall i | i in t.items ensures ItemWellFormed(t, i) {
      assert ItemWellFormed(s, i);
    }
  }

  /** The demands on a replacement row for item `i`. */
  predicate MayReplace(s: Store, i: ItemId, it: Item) {
    && i in s.items
    && ItemExtends(s.items[i], it)
    && it.epoch < EPOCHS
    && (it.status.Claimed? ==> FenceEpoch(it.fence) == it.epoch && it.claimedAt <= |LogOf(s, it.run)|)
    && (it.status.Queued? ==> it.worker.None?)
  }

  lemma SetItemExtends(s: Store, i: ItemId, it: Item)
    requires WellFormed(s) && MayReplace(s, i, it)
    ensures WellFormed(SetItem(s, i, it)) && Extends(s, SetItem(s, i, it))
  {
    var t := SetItem(s, i, it);
    forall j | j in t.items ensures ItemWellFormed(t, j) {
      assert ItemWellFormed(s, j);
    }
  }

  lemma RowWriteExtends(s: Store, i: ItemId, it: Item, r: RunId, kind: EventKind, now: Time)
    requires WellFormed(s) && MayReplace(s, i, it)
    ensures var t := Append(SetItem(s, i, it), r, kind, now); WellFormed(t) && Extends(s, t)
  {
    SetItemExtends(s, i, it);
    AppendExtends(SetItem(s, i, it), r, kind, now);
    ExtendsTransitive(s, SetItem(s, i, it), Append(SetItem(s, i, it), r, kind, now));
  }

  lemma ClaimExtends(s: Store, i: ItemId, worker: WorkerId)
    requires WellFormed(s) && (i in s.items ==> s.items[i].epoch + 1 < EPOCHS)
    ensures var t := ApplyClaim(s, i, worker); WellFormed(t) && Extends(s, t)
  {
    if i in s.items && s.items[i].status.Queued? {
      assert ItemWellFormed(s, i);
      EpochSurvivesMinting(s.term, s.items[i].epoch + 1);
      SetItemExtends(s, i, ApplyClaim(s, i, worker).items[i]);
    }
  }

  lemma ReattachExtends(s: Store, i: ItemId, worker: WorkerId, lost: int)
    requires WellFormed(s) && (i in s.items ==> s.items[i].epoch + 1 < EPOCHS)
    ensures var t := ApplyReattach(s, i, worker, lost); WellFormed(t) && Extends(s, t)
  {
    if CanReattach(s, i, worker, lost) {
      assert ItemWellFormed(s, i);
      EpochSurvivesMinting(s.term, s.items[i].epoch + 1);
      var t := ApplyReattach(s, i, worker, lost);
      SetItemExtends(s, i, t.items[i]);
      var u := SetItem(s, i, t.items[i]);
      assert t == u.(granted := t.granted);
      forall j | j in t.items ensures ItemWellFormed(t, j) { assert ItemWellFormed(u, j); }
    }
  }

  lemma RequeueMayReplace(s: Store, i: ItemId, attempt: nat)
    requires WellFormed(s) && i in s.items && s.items[i].status.Claimed? && s.items[i].epoch + 1 < EPOCHS
    ensures MayReplace(s, i, Requeued(s.items[i]).(attempt := attempt))
  {
    assert ItemWellFormed(s, i);
  }

  lemma ExpireExtends(s: Store, i: ItemId, now: Time)
    requires WellFormed(s) && (i in s.items ==> s.items[i].epoch + 1 < EPOCHS)
    ensures var t := ApplyExpire(s, i, now); WellFormed(t) && Extends(s, t)
  {
    if i in s.items && s.items[i].status.Claimed? {
      var it := s.items[i];
      SettleExtends(s, i, it.(status := ItemStatus.Failed, worker := None));
      RequeueMayReplace(s, i, it.attempt + 1);
      RequeueExtends(s, i, Requeued(it), now);
    }
  }

  lemma RequeueExtends(s: Store, i: ItemId, it: Item, now: Time)
    requires WellFormed(s) && MayReplace(s, i, it)
    ensures var t := Append(Append(SetItem(s, i, it), it.run, NodeFailed(it.node, true), now),
                            it.run, RetryScheduled(it.node), now);
            WellFormed(t) && Extends(s, t)
  {
    RowWriteExtends(s, i, it, it.run, NodeFailed(it.node, true), now);
    var t := Append(SetItem(s, i, it), it.run, NodeFailed(it.node, true), now);
    AppendExtends(t, it.run, RetryScheduled(it.node), now);
    ExtendsTransitive(s, t, Append(t, it.run, RetryScheduled(it.node), now));
  }

  lemma SettleExtends(s: Store, i: ItemId, it: Item)
    requires WellFormed(s) && i in s.items
    requires it.status.Settled()
    requires it == s.items[i].(status := it.status, worker := it.worker, attempt := it.attempt)
    ensures WellFormed(SetItem(s, i, it)) && Extends(s, SetItem(s, i, it)) && MayReplace(s, i, it)
  {
    assert ItemWellFormed(s, i);
    SetItemExtends(s, i, it);
  }

  lemma CommitExtends(s: Store, i: ItemId, fence: int, r: RunId, n: NodeId, outcome: RunStore.Outcome, now: Time)
    requires WellFormed(s)
    ensures var t := ApplyCommit(s, i, fence, r, n, outcome, now); WellFormed(t) && Extends(s, t)
  {
    if HeldUnder(s, i, fence) {
      var failed := s.items[i].(status := ItemStatus.Failed, worker := None);
      var done := s.items[i].(status := ItemStatus.Completed);
      SettleExtends(s, i, failed);
      SettleExtends(s, i, done);
      RowWriteExtends(s, i, failed, r, OutcomeEvent(n, outcome), now);
      RowWriteExtends(s, i, done, r, OutcomeEvent(n, outcome), now);
    }
  }

  lemma StartExtends(s: Store, a: Action)
    requires WellFormed(s) && a.StartExecution?
    ensures WellFormed(ApplyStart(s, a)) && Extends(s, ApplyStart(s, a))
  {
    var t := ApplyStart(s, a);
    forall j | j in t.items ensures ItemWellFormed(t, j) {
      if j in s.items { assert ItemWellFormed(s, j); }
    }
  }

  lemma EnqueueExtends(s: Store, i: ItemId, it: Item)
    requires WellFormed(s) && i !in s.items
    requires it.run in s.runs && it.epoch == 0 && it.status.Queued? && it.worker.None?
    ensures WellFormed(SetItem(s, i, it)) && Extends(s, SetItem(s, i, it))
  {
    var t := SetItem(s, i, it);
    forall j | j in t.items ensures ItemWellFormed(t, j) {
      if j in s.items { assert ItemWellFormed(s, j); }
    }
  }

  lemma RunWriteExtends(s: Store, r: RunId, run: Run)
    requires WellFormed(s) && r in s.runs && RunExtends(s.runs[r], run)
    ensures var t := s.(runs := s.runs[r := run]); WellFormed(t) && Extends(s, t)
  {
    var t := s.(runs := s.runs[r := run]);
    forall j | j in t.items ensures ItemWellFormed(t, j) { assert ItemWellFormed(s, j); }
  }

  lemma BookkeepingExtends(s: Store, t: Store)
    requires WellFormed(s)
    requires t.items == s.items && t.runs == s.runs && s.granted <= t.granted && s.term <= t.term
    requires forall key | key in s.workflows :: key in t.workflows && t.workflows[key] == s.workflows[key]
    ensures WellFormed(t) && Extends(s, t)
  {
    forall j | j in t.items ensures ItemWellFormed(t, j) { assert ItemWellFormed(s, j); }
  }

  predicate WritesOneItem(a: Action) {
    || a.ClaimItem? || a.Reattach? || a.ExpireLease? || a.CommitTurn? || a.FailItem? || a.SettleHeld?
    || a.SettleBlind? || a.WithdrawItem? || a.SweepDeadLetter? || a.SweepRequeue?
  }

  predicate AppendsOnly(a: Action) {
    || a.RaiseRequest? || a.RecordDecision? || a.RecordExpiry? || a.RecordEscalation? || a.RecordViolation?
    || a.RecordUnknown? || a.FailRejectedNode? || a.SkipNode? || a.SweepRecordFailure? || a.SweepRecordRetry?
    || a.RecordStarted?
  }

  lemma LeaseWritesExtend(cfg: Config, s: Store, a: Action)
    requires WellFormed(s) && Legal(cfg, s, a)
    requires a.ClaimItem? || a.Reattach? || a.ExpireLease? || a.CommitTurn? || a.SweepRequeue?
    ensures WellFormed(Apply(s, a)) && Extends(s, Apply(s, a))
  {
    match a
    case ClaimItem(i, worker) => ClaimExtends(s, i, worker);
    case Reattach(i, worker, lost) => ReattachExtends(s, i, worker, lost);
    case ExpireLease(i, now) => ExpireExtends(s, i, now);
    case CommitTurn(i, fence, r, n, outcome, now) => CommitExtends(s, i, fence, r, n, outcome, now);
    case SweepRequeue(i, read) =>
      if i in s.items && s.items[i].status.Claimed? {
        RequeueMayReplace(s, i, read + 1);
        SetItemExtends(s, i, Requeued(s.items[i]).(attempt := read + 1));
      }
  }

  lemma SettlesExtend(s: Store, a: Action)
    requires WellFormed(s) && (a.SettleHeld? || a.SettleBlind?)
    ensures WellFormed(Apply(s, a)) && Extends(s, Apply(s, a))
  {
    SettledExtends(s, a.item, a.fence);
  }

  lemma SettledExtends(s: Store, i: ItemId, fence: int)
    requires WellFormed(s)
    ensures WellFormed(ApplySettle(s, i, fence)) && Extends(s, ApplySettle(s, i, fence))
  {
    if i in s.items { SettleExtends(s, i, s.items[i].(status := ItemStatus.Completed)); }
  }

  lemma FailExtends(s: Store, i: ItemId)
    requires WellFormed(s) && i in s.items
    ensures var t := SetItem(s, i, s.items[i].(status := ItemStatus.Failed, worker := None));
            WellFormed(t) && Extends(s, t)
  {
    SettleExtends(s, i, s.items[i].(status := ItemStatus.Failed, worker := None));
  }

  lemma DeadLetterExtends(s: Store, i: ItemId, read: nat)
    requires WellFormed(s) && i in s.items
    ensures var t := SetItem(s, i, s.items[i].(status := DeadLettered, worker := None, attempt := read + 1));
            WellFormed(t) && Extends(s, t)
  {
    SettleExtends(s, i, s.items[i].(status := DeadLettered, worker := None, attempt := read + 1));
  }

  lemma FailItemExtends(s: Store, a: Action)
    requires WellFormed(s) && (a.FailItem? || a.WithdrawItem?)
    ensures WellFormed(Apply(s, a)) && Extends(s, Apply(s, a))
  {
    if a.item in s.items { FailExtends(s, a.item); }
  }

  lemma SweepDeadLetterExtends(s: Store, a: Action)
    requires WellFormed(s) && a.SweepDeadLetter?
    ensures WellFormed(Apply(s, a)) && Extends(s, Apply(s, a))
  {
    if a.item in s.items { DeadLetterExtends(s, a.item, a.read); }
  }

  lemma ItemWritesExtend(cfg: Config, s: Store, a: Action)
    requires WellFormed(s) && Legal(cfg, s, a) && WritesOneItem(a)
    ensures WellFormed(Apply(s, a)) && Extends(s, Apply(s, a))
  {
    if a.ClaimItem? || a.Reattach? || a.ExpireLease? || a.CommitTurn? || a.SweepRequeue? {
      LeaseWritesExtend(cfg, s, a);
    } else if a.SettleHeld? || a.SettleBlind? {
      SettlesExtend(s, a);
    } else if a.SweepDeadLetter? {
      SweepDeadLetterExtends(s, a);
    } else {
      FailItemExtends(s, a);
    }
  }

  lemma ConditionalAppendsExtend(s: Store, a: Action)
    requires WellFormed(s) && (a.RecordDecision? || a.RecordExpiry? || a.RecordEscalation?)
    ensures WellFormed(Apply(s, a)) && Extends(s, Apply(s, a))
  {
    match a
    case RecordDecision(r, ruling, decision, principal, now) =>
      AppendExtends(s, r, DecisionEvent(ruling, decision, principal), now);
    case RecordExpiry(r, n, answered, _, now) => AppendExtends(s, r, ApprovalExpired(n, answered), now);
    case RecordEscalation(r, n, answered, now) => AppendExtends(s, r, ApprovalEscalated(n, answered), now);
  }

  lemma GuardAppendsExtend(s: Store, a: Action)
    requires WellFormed(s) && (a.RaiseRequest? || a.RecordViolation? || a.RecordUnknown?)
    ensures WellFormed(Apply(s, a)) && Extends(s, Apply(s, a))
  {
    match a
    case RaiseRequest(i, request, now) =>
      if i in s.items { AppendExtends(s, s.items[i].run, ToolApprovalRequired(s.items[i].node, request), now); }
    case RecordViolation(r, n, now) => AppendExtends(s, r, PolicyViolation(n), now);
    case RecordUnknown(r, now) => AppendExtends(s, r, Unknown, now);
  }

  lemma NodeAppendsExtend(s: Store, a: Action)
    requires WellFormed(s)
    requires a.FailRejectedNode? || a.SkipNode? || a.SweepRecordFailure? || a.SweepRecordRetry? || a.RecordStarted?
    ensures WellFormed(Apply(s, a)) && Extends(s, Apply(s, a))
  {
    match a
    case FailRejectedNode(r, n, now) => AppendExtends(s, r, NodeFailed(n, false), now);
    case SkipNode(r, n, now) => AppendExtends(s, r, NodeSkipped(n), now);
    case SweepRecordFailure(r, n, retryable, now) => AppendExtends(s, r, NodeFailed(n, retryable), now);
    case SweepRecordRetry(r, n, now) => AppendExtends(s, r, RetryScheduled(n), now);
    case RecordStarted(r, n, now) => AppendExtends(s, r, NodeStarted(n), now);
  }

  lemma AppendsExtend(s: Store, a: Action)
    requires WellFormed(s) && AppendsOnly(a)
    ensures WellFormed(Apply(s, a)) && Extends(s, Apply(s, a))
  {
    if a.RecordDecision? || a.RecordExpiry? || a.RecordEscalation? {
      ConditionalAppendsExtend(s, a);
    } else if a.RaiseRequest? || a.RecordViolation? || a.RecordUnknown? {
      GuardAppendsExtend(s, a);
    } else {
      NodeAppendsExtend(s, a);
    }
  }

  lemma OtherWritesExtend(s: Store, a: Action)
    requires WellFormed(s) && !WritesOneItem(a) && !AppendsOnly(a)
    ensures WellFormed(Apply(s, a)) && Extends(s, Apply(s, a))
  {
    match a
    case StartExecution(_, _, _, _, _, _, _) => StartExtends(s, a);
    case EnqueueItem(i, r, n, payload, maxAttempts) =>
      if i !in s.items && r in s.runs {
        var it := NewItem(r, n, payload, maxAttempts);
        EnqueueExtends(s, i, it);
        BookkeepingExtends(SetItem(s, i, it), Apply(s, a));
        ExtendsTransitive(s, SetItem(s, i, it), Apply(s, a));
      }
    case ScheduleNode(r, n, now) =>
      AppendExtends(s, r, NodeScheduled(n), now);
      var t := Append(s, r, NodeScheduled(n), now);
      BookkeepingExtends(t, t.(dispatching := s.dispatching + {(r, n)}));
      ExtendsTransitive(s, t, t.(dispatching := s.dispatching + {(r, n)}));
    case FinishExecution(r, status, now) => if LiveRun(s, r) { RunWriteExtends(s, r, Apply(s, a).runs[r]); }
    case ResumeRun(r) => if r in s.runs { RunWriteExtends(s, r, s.runs[r].(status := Running)); }
    case StoreWorkflow(_, _) => BookkeepingExtends(s, Apply(s, a));
    case ReleaseItem(_, _) => BookkeepingExtends(s, Apply(s, a));
    case RaiseTerm(_) => BookkeepingExtends(s, Apply(s, a));
  }

  /** Every write the code makes keeps the store well formed and undoes nothing. */
  lemma ApplyExtends(cfg: Config, s: Store, a: Action)
    requires WellFormed(s) && Legal(cfg, s, a)
    ensures WellFormed(Apply(s, a)) && Extends(s, Apply(s, a))
  {
    if WritesOneItem(a) {
      ItemWritesExtend(cfg, s, a);
    } else if AppendsOnly(a) {
      AppendsExtend(s, a);
    } else {
      OtherWritesExtend(s, a);
    }
  }

  lemma {:induction false} TraceExtends(cfg: Config, s: Store, acts: seq<Action>)
    requires WellFormed(s) && ValidTrace(cfg, s, acts)
    ensures WellFormed(After(s, acts)) && Extends(s, After(s, acts))
    decreases |acts|
  {
    if |acts| > 0 {
      ApplyExtends(cfg, s, acts[0]);
      TraceExtends(cfg, Apply(s, acts[0]), acts[1..]);
      ExtendsTransitive(s, Apply(s, acts[0]), After(s, acts));
    }
  }

  lemma PrefixOfPrefix(log: Log, later: Log, k: nat)
    requires log <= later && k <= |log|
    ensures later[..k] == log[..k]
  {
  }

  // ---------------------------------------------------------------------------
  // Evidence stays evidence
  // ---------------------------------------------------------------------------

  lemma DefinitionIsStable(s: Store, t: Store, i: ItemId)
    requires WellFormed(s) && Extends(s, t)
    requires DefOf(s, i).Some?
    ensures DefOf(t, i) == DefOf(s, i)
  {
    assert RunExtends(s.runs[s.items[i].run], t.runs[s.items[i].run]);
    assert ItemExtends(s.items[i], t.items[i]);
  }

  lemma FiredIsStable(s: Store, t: Store, i: ItemId, tenant: Rule, k: nat, m: nat, outcome: Guard.Outcome, d: Deadline)
    requires WellFormed(s) && Extends(s, t)
    requires Fired(s, i, tenant, k, m, outcome, d)
    ensures Fired(t, i, tenant, k, m, outcome, d)
  {
    DefinitionIsStable(s, t, i);
    assert ItemExtends(s.items[i], t.items[i]);
    var r := s.items[i].run;
    assert RunExtends(s.runs[r], t.runs[r]);
    PrefixOfPrefix(s.runs[r].log, t.runs[r].log, k);
    PrefixOfPrefix(s.runs[r].log, t.runs[r].log, m);
  }

  lemma AllowedIsStable(s: Store, t: Store, i: ItemId, from: nat)
    requires WellFormed(s) && Extends(s, t) && AllowedSince(s, i, from)
    ensures AllowedSince(t, i, from)
  {
    var tenant: Rule, k, m :| from <= k <= m <= |LogOf(s, s.items[i].run)|
                              && Fired(s, i, tenant, k, m, Allow, NoDeadline);
    FiredIsStable(s, t, i, tenant, k, m, Allow, NoDeadline);
  }

  /** The lease of a fence that is still current, held or lost last, goes back to the claim it always did. */
  lemma LeaseStartStays(s: Store, t: Store, i: ItemId, fence: int)
    requires WellFormed(s) && WellFormed(t) && Extends(s, t) && i in s.items
    requires FenceEpoch(fence) <= s.items[i].epoch
    ensures Current(t.items[i], fence) ==> Current(s.items[i], fence) && t.items[i].heldSince == s.items[i].heldSince
  {
    assert ItemExtends(s.items[i], t.items[i]);
    assert ItemWellFormed(s, i) && ItemWellFormed(t, i);
  }

  lemma CompletableIsStable(s: Store, t: Store, i: ItemId)
    requires WellFormed(s) && Extends(s, t) && WasCompletable(s, i)
    ensures WasCompletable(t, i)
  {
    var tenant: Rule, k, m :| 0 <= k <= m <= |LogOf(s, s.items[i].run)| && Completable(s, i, tenant, k, m);
    DefinitionIsStable(s, t, i);
    assert ItemExtends(s.items[i], t.items[i]);
    var r := s.items[i].run;
    assert RunExtends(s.runs[r], t.runs[r]);
    PrefixOfPrefix(s.runs[r].log, t.runs[r].log, k);
    PrefixOfPrefix(s.runs[r].log, t.runs[r].log, m);
    assert Completable(t, i, tenant, k, m);
  }

  /** A fence still held is the very lease it was minted for: nobody was handed the item since. */
  lemma FenceIdentifiesLease(s: Store, t: Store, i: ItemId, fence: int)
    requires WellFormed(s) && WellFormed(t) && Extends(s, t)
    requires HeldUnder(s, i, fence) && HeldUnder(t, i, fence)
    ensures t.items[i].claimedAt == s.items[i].claimedAt
    ensures t.items[i].epoch == s.items[i].epoch
  {
    assert ItemExtends(s.items[i], t.items[i]);
    assert ItemWellFormed(s, i) && ItemWellFormed(t, i);
  }

  /** A decision to withhold, made under a lease, still justifies the settle made under its fence. */
  lemma WithheldIsStable(cfg: Config, s: Store, t: Store, i: ItemId, fence: int)
    requires WellFormed(s) && WellFormed(t) && Extends(s, t)
    requires HeldUnder(s, i, fence) && SeenWithheld(s, i)
    ensures Legal(cfg, t, SettleHeld(i, fence))
  {
    if HeldUnder(t, i, fence) {
      FenceIdentifiesLease(s, t, i, fence);
      var r := s.items[i].run;
      var log := LogOf(s, r);
      var k :| s.items[i].claimedAt <= k <= |log| && ApprovalFold(log[..k], s.items[i].node).Withholds();
      assert RunExtends(s.runs[r], t.runs[r]);
      PrefixOfPrefix(s.runs[r].log, t.runs[r].log, k);
      assert ItemExtends(s.items[i], t.items[i]);
      assert ApprovalFold(LogOf(t, r)[..k], t.items[i].node).Withholds();
    }
  }

  lemma ReviewIsStable(cfg: Config, s: Store, t: Store, r: RunId, k: nat, ruling: Ruling, decision: Decision,
                       principal: Option<Principal>, now: Time)
    requires Extends(s, t)
    requires r in s.runs && k <= |LogOf(s, r)|
    requires Reviewed(cfg, LogOf(s, r)[..k], ruling, decision, principal)
    ensures Legal(cfg, t, RecordDecision(r, ruling, decision, principal, now))
  {
    assert RunExtends(s.runs[r], t.runs[r]);
    PrefixOfPrefix(s.runs[r].log, t.runs[r].log, k);
    assert Reviewed(cfg, LogOf(t, r)[..k], ruling, decision, principal);
  }
}
