/**
 No stranded node: while a run is live, every node its log says is scheduled and unfinished is carried
 by something that will act on it, after any prefix of any interleaving, so also after a crash between
 any two writes. This module shows that no write the code makes whole breaks that. The one standing gap is
 the scheduler's own dispatch, which writes the event before the item.
 */
module Stranding {
  import opened Wrappers
  import opened Workflow
  import opened EventLog
  import opened Fences
  import opened Approvals
  import opened Guard
  import opened RunStore
  import opened StoreHistory
  import opened LogEffects

  /** From the moment the log had `from` entries, the node was never withheld. */
  predicate Clear(log: Log, n: NodeId, from: nat) {
    forall k | from <= k <= |log| :: !ApprovalFold(log[..k], n).Withholds()
  }

  /** Item `i` will act on node `n`: it waits for a worker, or is leased by one whose result the engine
      would take. A lease that saw its node withheld does not count: it settles without a result. */
  predicate Carries(s: Store, i: ItemId, r: RunId, n: NodeId) {
    && i in s.items && s.items[i].run == r && s.items[i].node == n
    && (s.items[i].status.Queued? || (s.items[i].status.Claimed? && Clear(LogOf(s, r), n, s.items[i].claimedAt)))
  }

  predicate Withheld(s: Store, r: RunId, n: NodeId) {
    ApprovalFold(LogOf(s, r), n).Withholds()
  }

  predicate Scheduled(s: Store, r: RunId, n: NodeId) {
    ProgressOf(LogOf(s, r), n).scheduled
  }

  predicate Carried(s: Store, r: RunId, n: NodeId) {
    (r, n) in s.dispatching || Withheld(s, r, n) || exists i | i in s.items :: Carries(s, i, r, n)
  }

  predicate Kept(s: Store, r: RunId, n: NodeId) {
    LiveRun(s, r) && Scheduled(s, r, n) ==> Carried(s, r, n)
  }

  ghost predicate NothingStranded(s: Store) {
    forall r, n :: Kept(s, r, n)
  }

  // ---------------------------------------------------------------------------
  // What one more event does to a node
  // ---------------------------------------------------------------------------

  predicate Schedules(kind: EventKind, n: NodeId) {
    (kind.NodeScheduled? || kind.NodeStarted? || kind.RetryScheduled?) && kind.node == n
  }

  lemma WithheldUntilDecided(log: Log, e: Event, n: NodeId)
    requires ApprovalFold(log, n).Withholds() && !Schedules(e.kind, n)
    ensures ApprovalFold(log + [e], n).Withholds() || !ProgressOf(log + [e], n).scheduled
  {
    ApprovalFoldAppend(log, e, n);
    ProgressAppend(log, e, n);
    ProgressAgreesWithApprovals(log, n);
    ProgressAgreesWithApprovals(log + [e], n);
  }

  lemma ClearUntilWithheld(log: Log, e: Event, n: NodeId, from: nat)
    requires Clear(log, n, from)
    ensures ApprovalFold(log + [e], n).Withholds() || Clear(log + [e], n, from)
  {
    var longer := log + [e];
    if !ApprovalFold(longer, n).Withholds() {
      forall k | from <= k <= |longer| ensures !ApprovalFold(longer[..k], n).Withholds() {
        if k <= |log| {
          assert longer[..k] == log[..k];
        } else {
          assert longer[..k] == longer;
        }
      }
    }
  }

  /** An event that schedules nothing keeps the promise, if every item that carried the node is as it was. */
  lemma AppendKeeps(s: Store, t: Store, r: RunId, n: NodeId, e: Event)
    requires r in s.runs && r in t.runs && t.runs[r].log == s.runs[r].log + [e]
    requires Scheduled(s, r, n) ==> Carried(s, r, n)
    requires !Schedules(e.kind, n)
    requires (r, n) in s.dispatching ==> (r, n) in t.dispatching
    requires forall i | Carries(s, i, r, n) :: i in t.items && t.items[i] == s.items[i]
    ensures Scheduled(t, r, n) ==> Carried(t, r, n)
  {
    var log := s.runs[r].log;
    ProgressAppend(log, e, n);
    if Scheduled(t, r, n) && (r, n) !in s.dispatching {
      if Withheld(s, r, n) {
        WithheldUntilDecided(log, e, n);
      } else {
        var i :| Carries(s, i, r, n);
        if s.items[i].status.Claimed? {
          ClearUntilWithheld(log, e, n, s.items[i].claimedAt);
        }
        assert Withheld(t, r, n) || Carries(t, i, r, n);
      }
    }
  }

  lemma SameLogKeeps(s: Store, t: Store, r: RunId, n: NodeId)
    requires LogOf(t, r) == LogOf(s, r)
    requires Scheduled(s, r, n) ==> Carried(s, r, n)
    requires (r, n) in s.dispatching ==> (r, n) in t.dispatching
    requires forall i | Carries(s, i, r, n) :: Withheld(s, r, n) || Carries(t, i, r, n)
    ensures Scheduled(t, r, n) ==> Carried(t, r, n)
  {
    if Scheduled(t, r, n) && (r, n) !in s.dispatching && !Withheld(s, r, n) {
      var i :| Carries(s, i, r, n);
      assert Carries(t, i, r, n);
    }
  }

  // ---------------------------------------------------------------------------
  // One write
  // ---------------------------------------------------------------------------

  lemma HandOutKeeps(s: Store, a: Action, r: RunId, n: NodeId)
    requires WellFormed(s) && Kept(s, r, n) && LiveRun(s, r)
    requires a.ClaimItem? || a.Reattach?
    ensures Kept(Apply(s, a), r, n)
  {
    var t := Apply(s, a);
    forall i | Carries(s, i, r, n) ensures Withheld(s, r, n) || Carries(t, i, r, n) {
      var log := LogOf(s, r);
      assert log[..|log|] == log;
    }
    SameLogKeeps(s, t, r, n);
  }

  lemma ExpiryKeeps(s: Store, a: Action, r: RunId, n: NodeId)
    requires WellFormed(s) && Kept(s, r, n) && LiveRun(s, r)
    requires a.ExpireLease?
    ensures Kept(Apply(s, a), r, n)
  {
    var t := Apply(s, a);
    if Expires(s, a.item) && s.items[a.item].run == r {
      var it := s.items[a.item];
      if it.node == n {
        assert Carries(t, a.item, r, n);
      } else {
        var mid := Append(s, r, NodeFailed(it.node, true), a.now);
        AppendKeeps(s, mid, r, n, Event(NodeFailed(it.node, true), a.now));
        AppendKeeps(mid, t, r, n, Event(RetryScheduled(it.node), a.now));
      }
    } else {
      RunAfter(s, a, r);
      SameLogKeeps(s, t, r, n);
    }
  }

  lemma OwnCommitKeeps(s: Store, a: Action)
    requires a.CommitTurn? && RunStore.Commits(s, a) && LiveRun(s, a.run)
    ensures !Scheduled(Apply(s, a), a.run, a.node)
  {
    var e := Event(OutcomeEvent(a.node, a.outcome), a.now);
    ProgressAppend(LogOf(s, a.run), e, a.node);
    assert LogOf(Apply(s, a), a.run) == LogOf(s, a.run) + [e];
  }

  lemma CommitKeeps(cfg: Config, s: Store, a: Action, r: RunId, n: NodeId)
    requires WellFormed(s) && Kept(s, r, n) && LiveRun(s, r)
    requires a.CommitTurn? && Legal(cfg, s, a)
    ensures Kept(Apply(s, a), r, n)
  {
    var t := Apply(s, a);
    if RunStore.Commits(s, a) && a.run == r && a.node == n {
      OwnCommitKeeps(s, a);
    } else {
      RunAfter(s, a, r);
      CommitTouchesItsItem(s, a);
      if RunStore.Commits(s, a) && a.run == r {
        AppendKeeps(s, t, r, n, Event(OutcomeEvent(a.node, a.outcome), a.now));
      } else {
        SameLogKeeps(s, t, r, n);
      }
    }
  }

  lemma CommitTouchesItsItem(s: Store, a: Action)
    requires a.CommitTurn?
    ensures forall i | i in s.items && i != a.item :: i in Apply(s, a).items && Apply(s, a).items[i] == s.items[i]
    ensures Apply(s, a).dispatching == s.dispatching
    ensures !HeldUnder(s, a.item, a.fence) ==> Apply(s, a) == s
  {
  }

  /** A held lease is settled only after its node was seen withheld, so it was carrying nothing. */
  lemma HeldSettleKeeps(cfg: Config, s: Store, a: Action, r: RunId, n: NodeId)
    requires WellFormed(s) && Kept(s, r, n) && LiveRun(s, r)
    requires a.SettleHeld? && Legal(cfg, s, a)
    ensures Kept(Apply(s, a), r, n)
  {
    SameLogKeeps(s, Apply(s, a), r, n);
  }

  lemma DroppingKeeps(cfg: Config, s: Store, a: Action, r: RunId, n: NodeId)
    requires WellFormed(s) && Kept(s, r, n) && LiveRun(s, r)
    requires (a.FailItem? || a.WithdrawItem?) && Legal(cfg, s, a)
    ensures Kept(Apply(s, a), r, n)
  {
    SameLogKeeps(s, Apply(s, a), r, n);
  }

  lemma DispatchKeeps(s: Store, a: Action, r: RunId, n: NodeId)
    requires WellFormed(s) && Kept(s, r, n) && LiveRun(s, r)
    requires a.ScheduleNode? || (a.EnqueueItem? && a.item !in s.items)
    ensures Kept(Apply(s, a), r, n)
  {
    var t := Apply(s, a);
    RunAfter(s, a, r);
    if a.run == r && a.node == n {
      if a.EnqueueItem? { assert Carries(t, a.item, r, n); }
    } else if a.ScheduleNode? && a.run == r {
      AppendKeeps(s, t, r, n, Event(NodeScheduled(a.node), a.now));
    } else {
      SameLogKeeps(s, t, r, n);
    }
  }

  lemma EventKeeps(s: Store, a: Action, r: RunId, n: NodeId)
    requires WellFormed(s) && Kept(s, r, n) && LiveRun(s, r)
    requires !WritesOneItem(a) && !SplitWrite(a) && !a.ScheduleNode? && !a.EnqueueItem?
    ensures Kept(Apply(s, a), r, n)
  {
    var t := Apply(s, a);
    RunAfter(s, a, r);
    ItemsKept(s, a);
    if TouchedRun(s, a) == r && |NewEvents(s, a)| > 0 {
      assert |NewEvents(s, a)| == 1 && !Schedules(NewEvents(s, a)[0].kind, n);
      AppendKeeps(s, t, r, n, NewEvents(s, a)[0]);
    } else {
      SameLogKeeps(s, t, r, n);
    }
  }

  lemma ItemsKept(s: Store, a: Action)
    requires !WritesOneItem(a) && !SplitWrite(a) && !a.ScheduleNode? && !a.EnqueueItem?
    ensures forall i | i in s.items :: i in Apply(s, a).items && Apply(s, a).items[i] == s.items[i]
    ensures Apply(s, a).dispatching == s.dispatching
  {
  }

  lemma StepKeeps(cfg: Config, s: Store, a: Action, r: RunId, n: NodeId)
    requires WellFormed(s) && Kept(s, r, n) && LiveRun(s, r)
    requires Legal(cfg, s, a) && !SplitWrite(a)
    ensures Kept(Apply(s, a), r, n)
  {
    if a.ClaimItem? || a.Reattach? {
      HandOutKeeps(s, a, r, n);
    } else if a.ExpireLease? {
      ExpiryKeeps(s, a, r, n);
    } else if a.CommitTurn? {
      CommitKeeps(cfg, s, a, r, n);
    } else if a.SettleHeld? {
      HeldSettleKeeps(cfg, s, a, r, n);
    } else if a.FailItem? || a.WithdrawItem? {
      DroppingKeeps(cfg, s, a, r, n);
    } else if a.ScheduleNode? || a.EnqueueItem? {
      DispatchKeeps(s, a, r, n);
    } else {
      EventKeeps(s, a, r, n);
    }
  }

  /** A run the write brings into being comes with the item for its start node. */
  lemma StartKeeps(s: Store, a: Action, r: RunId, n: NodeId)
    requires r in Apply(s, a).runs && r !in s.runs
    ensures Kept(Apply(s, a), r, n)
  {
    RunCreated(s, a, r);
    var t := Apply(s, a);
    var start := s.workflows[a.key].start;
    StartQueues(s, a);
    assert Carries(t, a.item, r, start);
    FreshLog(t.runs[r].log, start, n);
  }

  lemma StartQueues(s: Store, a: Action)
    requires Starts(s, a)
    ensures a.item in Apply(s, a).items
    ensures Apply(s, a).items[a.item] == NewItem(a.run, s.workflows[a.key].start, a.payload, a.maxAttempts)
  {
  }

  lemma FreshLog(log: Log, start: NodeId, n: NodeId)
    requires |log| == 2 && log[0].kind.WorkflowStarted? && log[1].kind == NodeScheduled(start)
    ensures ProgressOf(log, n).scheduled ==> n == start
  {
    assert log == ([] + [log[0]]) + [log[1]];
    ProgressAppend([log[0]], log[1], n);
    ProgressAppend([], log[0], n);
  }

  lemma WholeStepStrandsNothing(cfg: Config, s: Store, a: Action)
    requires WellFormed(s) && NothingStranded(s) && Legal(cfg, s, a) && !SplitWrite(a)
    ensures NothingStranded(Apply(s, a))
  {
    forall r, n ensures Kept(Apply(s, a), r, n) {
      assert Kept(s, r, n);
      if r in s.runs {
        RunAfter(s, a, r);
        if LiveRun(s, r) { StepKeeps(cfg, s, a, r, n); }
      } else if r in Apply(s, a).runs {
        StartKeeps(s, a, r, n);
      }
    }
  }

  /** An event that schedules a node decides nothing about it. */
  lemma ClearAcross(log: Log, e: Event, n: NodeId, from: nat)
    requires Schedules(e.kind, n) && !ApprovalFold(log, n).Withholds()
    ensures Clear(log, n, from) <==> Clear(log + [e], n, from)
  {
    ApprovalFoldAppend(log, e, n);
    if Clear(log, n, from) {
      ClearUntilWithheld(log, e, n, from);
    }
    if Clear(log + [e], n, from) {
      forall k | from <= k <= |log| ensures !ApprovalFold(log[..k], n).Withholds() {
        assert (log + [e])[..k] == log[..k];
      }
    }
  }

  lemma {:induction false} WithheldNamesARequest(log: Log, n: NodeId)
    requires !ApprovalFold(log, n).NotRequested?
    ensures exists k | 0 <= k < |log| :: log[k].kind.ToolApprovalRequired? && log[k].kind.node == n
  {
    var shorter := log[..|log| - 1];
    if ApprovalFold(shorter, n).NotRequested? {
      assert log[|log| - 1].kind.ToolApprovalRequired?;
    } else {
      WithheldNamesARequest(shorter, n);
      var k :| 0 <= k < |shorter| && shorter[k].kind.ToolApprovalRequired? && shorter[k].kind.node == n;
      assert log[k] == shorter[k];
    }
  }

  // ---------------------------------------------------------------------------
  // The gap in a dispatch
  // ---------------------------------------------------------------------------

  /** A dispatch cut in half. Between `NodeScheduled` and its item the node is carried by nothing but the
      scheduler's intention, exactly when nothing else carried it: nothing in the store will act on it. */
  lemma CutDispatchStrandsIff(s: Store, r: RunId, n: NodeId, now: Time)
    requires WellFormed(s) && LiveRun(s, r)
    requires !ProgressOf(LogOf(s, r), n).completed && !ProgressOf(LogOf(s, r), n).failed
    ensures var crashed := Apply(s, ScheduleNode(r, n, now)).(dispatching := {});
            Kept(crashed, r, n) <==> Withheld(s, r, n) || exists i | i in s.items :: Carries(s, i, r, n)
  {
    var t := Apply(s, ScheduleNode(r, n, now));
    var crashed := t.(dispatching := {});
    var log, e := LogOf(s, r), Event(NodeScheduled(n), now);
    ProgressAppend(log, e, n);
    ApprovalFoldAppend(log, e, n);
    forall i ensures Withheld(s, r, n) || (Carries(crashed, i, r, n) <==> Carries(s, i, r, n)) {
      if i in s.items && s.items[i].run == r && !Withheld(s, r, n) {
        ClearAcross(log, e, n, s.items[i].claimedAt);
        assert ItemWellFormed(s, i);
      }
    }
  }

  /** Scheduled and unfinished in a live run, with nothing in the store that will act on it. */
  predicate Stranded(s: Store, r: RunId, n: NodeId) {
    && LiveRun(s, r) && Scheduled(s, r, n) && !ProgressOf(LogOf(s, r), n).completed
    && !Withheld(s, r, n)
    && (forall i | i in s.items :: !Carries(s, i, r, n))
  }
}
