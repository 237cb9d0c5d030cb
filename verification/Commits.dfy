/**
 Exactly-once commit on the fenced paths: over any run of the system an item is committed at most once,
 under the coordinates the engine recorded, into a run that is still live; the completions in a log are
 exactly the commits that happened; and a result reported under a released lease is covered by an
 approval of that very payload.
 */
module Commits {
  import opened Wrappers
  import opened Workflow
  import opened EventLog
  import opened Approvals
  import opened Guard
  import opened RunStore
  import opened StoreHistory
  import opened LogEffects
  import opened RunSafety

  /** How often item `i` was committed in a run of the system. */
  function CommitCount(s: Store, acts: seq<Action>, i: ItemId): nat
    decreases |acts|
  {
    if |acts| == 0 then 0
    else
      (if RunStore.Commits(s, acts[0]) && acts[0].item == i then 1 else 0) + CommitCount(Apply(s, acts[0]), acts[1..], i)
  }

  lemma CommitSettles(s: Store, a: Action)
    requires RunStore.Commits(s, a)
    ensures a.item in Apply(s, a).items && Apply(s, a).items[a.item].status.Settled()
    ensures !s.items[a.item].status.Settled()
  {
  }

  /** Whatever claims, expiries, retries, forged fences and cancels come in between, an item is committed
      at most once, and never again once it is settled. */
  lemma {:induction false} AtMostOneCommit(cfg: Config, s: Store, acts: seq<Action>, i: ItemId)
    requires WellFormed(s) && ValidTrace(cfg, s, acts)
    ensures CommitCount(s, acts, i) <= 1
    ensures i in s.items && s.items[i].status.Settled() ==> CommitCount(s, acts, i) == 0
    decreases |acts|
  {
    if |acts| > 0 {
      var t := Apply(s, acts[0]);
      ApplyExtends(cfg, s, acts[0]);
      AtMostOneCommit(cfg, t, acts[1..], i);
      if RunStore.Commits(s, acts[0]) && acts[0].item == i {
        CommitSettles(s, acts[0]);
      }
      if i in s.items {
        assert ItemExtends(s.items[i], t.items[i]);
      }
    }
  }

  /** Action `k` of the execution commits item `i`. */
  predicate CommitsAt(s: Store, acts: seq<Action>, k: nat, i: ItemId)
    requires k < |acts|
  {
    RunStore.Commits(After(s, acts[..k]), acts[k]) && acts[k].item == i
  }

  /** The same without the count: two commits of one item are one and the same step of the execution. */
  lemma CommitsAreOne(cfg: Config, s: Store, acts: seq<Action>, i: ItemId, j: nat, k: nat)
    requires WellFormed(s) && ValidTrace(cfg, s, acts) && j < |acts| && k < |acts|
    requires CommitsAt(s, acts, j, i) && CommitsAt(s, acts, k, i)
    ensures j == k
  {
    if k < j {
      CommitsAreOne(cfg, s, acts, i, k, j);
    } else if j < k {
      SettledAfter(cfg, s, acts, i, j, k);
    }
  }

  lemma SettledAfter(cfg: Config, s: Store, acts: seq<Action>, i: ItemId, j: nat, k: nat)
    requires WellFormed(s) && ValidTrace(cfg, s, acts) && j < k <= |acts| && CommitsAt(s, acts, j, i)
    ensures var t := After(s, acts[..k]); i in t.items && t.items[i].status.Settled()
  {
    var first, later := acts[..j], acts[..k];
    TraceSplit(cfg, s, acts, k);
    TraceSplit(cfg, s, later, j);
    assert later[..j] == first && later[j] == acts[j] && later[j..][1..] == later[j + 1..];
    TraceExtends(cfg, s, first);
    var before := After(s, first);
    var after := Apply(before, acts[j]);
    ApplyExtends(cfg, before, acts[j]);
    CommitSettles(before, acts[j]);
    TraceExtends(cfg, after, later[j + 1..]);
    assert ItemExtends(after.items[i], After(after, later[j + 1..]).items[i]);
  }

  /** A commit writes one event, at the end of the log of the item's own run and about the item's own
      node; every other run keeps its log. The run was live, and its log held no end of the run. */
  lemma CommitFilesUnderItsItem(cfg: Config, s: Store, a: Action, other: RunId)
    requires WellFormed(s) && AllSafe(cfg, s) && Legal(cfg, s, a) && RunStore.Commits(s, a)
    requires other in s.runs
    ensures var it := s.items[a.item];
            && it.run in s.runs && !s.runs[it.run].status.IsTerminal() && !HasEnd(s.runs[it.run].log)
            && other in Apply(s, a).runs
            && Apply(s, a).runs[other].log == s.runs[other].log +
                 (if other == it.run then [Event(OutcomeEvent(it.node, a.outcome), a.now)] else [])
  {
    RunAfter(s, a, other);
    assert Safe(cfg, s, s.items[a.item].run);
  }

  // ---------------------------------------------------------------------------
  // The log is a ledger of the commits
  // ---------------------------------------------------------------------------

  predicate RecordsResult(s: Store, a: Action, r: RunId, n: NodeId) {
    RunStore.Commits(s, a) && a.outcome.Done? && a.run == r && a.node == n
  }

  function Results(s: Store, acts: seq<Action>, r: RunId, n: NodeId): nat
    decreases |acts|
  {
    if |acts| == 0 then 0
    else (if RecordsResult(s, acts[0], r, n) then 1 else 0) + Results(Apply(s, acts[0]), acts[1..], r, n)
  }

  lemma CompletionsConcat(log: Log, added: seq<Event>, n: NodeId)
    ensures Completions(log + added, n) == Completions(log, n) + Completions(added, n)
  {
    if |added| == 0 {
      assert log + added == log;
    } else {
      var shorter := added[..|added| - 1];
      assert (log + added)[..|log + added| - 1] == log + shorter;
      CompletionsConcat(log, shorter, n);
    }
  }

  lemma NewEventsCountResults(s: Store, a: Action, n: NodeId)
    ensures Completions(NewEvents(s, a), n) == (if RecordsResult(s, a, TouchedRun(s, a), n) then 1 else 0)
  {
    var added := NewEvents(s, a);
    if |added| == 1 {
      assert added[..0] == [];
    } else if |added| == 2 {
      assert added == [added[0]] + [added[1]];
      CompletionsConcat([added[0]], [added[1]], n);
    }
  }

  lemma {:induction false} StepCountsResults(cfg: Config, s: Store, a: Action, r: RunId, n: NodeId)
    requires Legal(cfg, s, a)
    ensures Completions(LogOf(Apply(s, a), r), n)
         == Completions(LogOf(s, r), n) + (if RecordsResult(s, a, r, n) then 1 else 0)
  {
    if r in s.runs {
      RunAfter(s, a, r);
      var log := s.runs[r].log;
      if r == TouchedRun(s, a) {
        CompletionsConcat(log, NewEvents(s, a), n);
        NewEventsCountResults(s, a, n);
      } else {
        assert log + [] == log;
      }
    } else if r in Apply(s, a).runs {
      RunCreated(s, a, r);
      FreshLogHasNoResult(Apply(s, a).runs[r].log, n);
    }
  }

  lemma FreshLogHasNoResult(log: Log, n: NodeId)
    requires |log| == 2 && log[0].kind.WorkflowStarted? && log[1].kind.NodeScheduled?
    ensures Completions(log, n) == 0
  {
    assert log == [log[0]] + [log[1]];
    CompletionsConcat([log[0]], [log[1]], n);
  }

  /** Conservation: the completions of a node in a run's log are those it started with plus exactly the
      results the fenced commits recorded, none lost, none doubled, none misfiled. */
  lemma {:induction false} LogCountsTheResults(cfg: Config, s: Store, acts: seq<Action>, r: RunId, n: NodeId)
    requires WellFormed(s) && ValidTrace(cfg, s, acts)
    ensures Completions(LogOf(After(s, acts), r), n) == Completions(LogOf(s, r), n) + Results(s, acts, r, n)
    decreases |acts|
  {
    if |acts| > 0 {
      ApplyExtends(cfg, s, acts[0]);
      StepCountsResults(cfg, s, acts[0], r, n);
      LogCountsTheResults(cfg, Apply(s, acts[0]), acts[1..], r, n);
    }
  }

  // ---------------------------------------------------------------------------
  // Released leases
  // ---------------------------------------------------------------------------

  /** Every lease a worker was told of belongs to an item the claim gate allowed, and if the lease still means
      anything, held or lost last, the gate allowed it since the claim the lease goes back to. */
  predicate GrantsEarned(s: Store) {
    forall g | g in s.granted :: MayRelease(s, g.0, g.1)
  }

  lemma GrantIsStable(s: Store, t: Store, i: ItemId, fence: int)
    requires WellFormed(s) && WellFormed(t) && Extends(s, t) && MayRelease(s, i, fence)
    ensures MayRelease(t, i, fence)
  {
    AllowedIsStable(s, t, i, 0);
    assert ItemExtends(s.items[i], t.items[i]);
    LeaseStartStays(s, t, i, fence);
    if Current(t.items[i], fence) {
      AllowedIsStable(s, t, i, s.items[i].heldSince);
    }
  }

  /** A re-attached lease goes back to the same claim as the one it replaces. */
  lemma ReattachEarns(cfg: Config, s: Store, a: Action)
    requires WellFormed(s) && Legal(cfg, s, a) && a.Reattach? && CanReattach(s, a.item, a.worker, a.lost)
    requires MayRelease(s, a.item, a.lost)
    ensures MayRelease(Apply(s, a), a.item, Apply(s, a).items[a.item].fence)
  {
    var t := Apply(s, a);
    ApplyExtends(cfg, s, a);
    assert ItemWellFormed(t, a.item);
    AllowedIsStable(s, t, a.item, 0);
    AllowedIsStable(s, t, a.item, s.items[a.item].heldSince);
  }

  lemma StepEarnsGrants(cfg: Config, s: Store, a: Action)
    requires WellFormed(s) && GrantsEarned(s) && Legal(cfg, s, a)
    ensures GrantsEarned(Apply(s, a))
  {
    var t := Apply(s, a);
    ApplyExtends(cfg, s, a);
    forall g | g in t.granted ensures MayRelease(t, g.0, g.1) {
      GrantComesFrom(s, a, g);
      if g in s.granted || a.ReleaseItem? {
        GrantIsStable(s, t, g.0, g.1);
      } else {
        assert MayRelease(s, (a.item, a.lost).0, (a.item, a.lost).1);
        ReattachEarns(cfg, s, a);
      }
    }
  }

  lemma GrantComesFrom(s: Store, a: Action, g: (ItemId, int))
    requires g in Apply(s, a).granted
    ensures || g in s.granted
            || (a.ReleaseItem? && g == (a.item, a.fence))
            || (a.Reattach? && CanReattach(s, a.item, a.worker, a.lost) && (a.item, a.lost) in s.granted
                && g == (a.item, Apply(s, a).items[a.item].fence))
  {
    match a
    case ExpireLease(_, _) =>
    case CommitTurn(_, _, _, _, _, _) =>
    case _ =>
  }

  lemma {:induction false} TraceEarnsGrants(cfg: Config, s: Store, acts: seq<Action>)
    requires WellFormed(s) && GrantsEarned(s) && ValidTrace(cfg, s, acts)
    ensures GrantsEarned(After(s, acts))
    decreases |acts|
  {
    if |acts| > 0 {
      ApplyExtends(cfg, s, acts[0]);
      StepEarnsGrants(cfg, s, acts[0]);
      TraceEarnsGrants(cfg, Apply(s, acts[0]), acts[1..]);
    }
  }

  /** A result of a gated node reported under a lease the engine handed out is preceded, in the item's own
      run, by an approval of exactly this run, node, registered definition and payload, for an occurrence
      the node was at between the claim this lease goes back to and now. */
  lemma ReleasedResultIsCovered(cfg: Config, s: Store, a: Action)
    requires WellFormed(s) && GrantsEarned(s) && Legal(cfg, s, a)
    requires RunStore.Commits(s, a) && a.outcome.Done? && (a.item, a.fence) in s.granted
    requires Gated(s, a.run, a.node)
    ensures var it := s.items[a.item];
            var log := s.runs[it.run].log;
            var definition := s.workflows[s.runs[it.run].workflow].nodes[it.node].definition;
            && it.heldSince <= |log|
            && exists j, m | 0 <= j < m && it.heldSince <= m <= |log| ::
                 && log[j].kind.ApprovalReceived? && log[j].kind.node == it.node && log[j].kind.decision.Approve?
                 && log[j].kind.approvedDigest
                    == Some(ActionDigest(it.run, Completions(log[..m], it.node), it.node, definition, it.payload))
  {
    var it := s.items[a.item];
    var log := s.runs[it.run].log;
    var def := s.workflows[s.runs[it.run].workflow].nodes[it.node];
    assert MayRelease(s, (a.item, a.fence).0, (a.item, a.fence).1);
    var tenant: Rule, k, m :| it.heldSince <= k <= m <= |LogOf(s, it.run)|
                              && Fired(s, a.item, tenant, k, m, Allow, NoDeadline);
    var step := Completions(log[..m], it.node);
    ReleaseNeedsAnApproval(def, tenant, log[..k], it.run, it.node, it.payload, step, NoDeadline);
    var j :| 0 <= j < |log[..k]|
             && log[..k][j].kind.ApprovalReceived? && log[..k][j].kind.node == it.node
             && log[..k][j].kind.decision.Approve?
             && log[..k][j].kind.approvedDigest
                == Some(ActionDigest(it.run, step, it.node, def.definition, it.payload));
    assert log[j] == log[..k][j];
  }

  // ---------------------------------------------------------------------------
  // Where the order of a log stops being promised
  // ---------------------------------------------------------------------------

  predicate NobodyPaused(s: Store) {
    forall r | r in s.runs :: !s.runs[r].status.Paused?
  }

  /** No write of the system pauses a run, so the guard of the flip below never holds in a store that
      started with no paused run. */
  lemma {:induction false} NobodyPauses(cfg: Config, s: Store, acts: seq<Action>)
    requires NobodyPaused(s) && ValidTrace(cfg, s, acts)
    ensures NobodyPaused(After(s, acts))
    decreases |acts|
  {
    if |acts| > 0 {
      var t := Apply(s, acts[0]);
      forall r | r in t.runs ensures !t.runs[r].status.Paused? {
        if r in s.runs { RunAfter(s, acts[0], r); } else { RunCreated(s, acts[0], r); }
      }
      NobodyPauses(cfg, t, acts[1..]);
    }
  }

  lemma FlipKeepsOrderIff(run: Run)
    requires Ordered(run)
    ensures Ordered(run.(status := Running)) <==> !run.status.IsTerminal()
  {
  }

  lemma FlipKeepsOthers(cfg: Config, s: Store, r: RunId, other: RunId)
    requires WellFormed(s) && AllSafe(cfg, s) && r in s.runs && other in s.runs
    ensures other in Apply(s, ResumeRun(r)).runs
    ensures AllSound(cfg, Apply(s, ResumeRun(r)).runs[other].log) && GatesHold(Apply(s, ResumeRun(r)), other)
  {
    ApplyExtends(cfg, s, ResumeRun(r));
    assert Safe(cfg, s, other);
    GatesHoldUnchanged(s, Apply(s, ResumeRun(r)), other);
  }

  /** The legacy flip of a paused run back to running is a write of its own, after the decision was
      appended. It is the one write the safety of every run does not survive unconditionally: it does exactly
      when the run is still live at that moment. A cancel that lands in between leaves a run marked running
      whose log already says it was cancelled. */
  lemma ResumeKeepsSafeIff(cfg: Config, s: Store, r: RunId)
    requires WellFormed(s) && AllSafe(cfg, s) && r in s.runs
    ensures AllSafe(cfg, Apply(s, ResumeRun(r))) <==> LiveRun(s, r)
  {
    var t := Apply(s, ResumeRun(r));
    assert Safe(cfg, s, r);
    FlipKeepsOrderIff(s.runs[r]);
    forall other | other in t.runs
      ensures Safe(cfg, t, other) <==> other != r || LiveRun(s, r)
    {
      assert Safe(cfg, s, other);
      FlipKeepsOthers(cfg, s, r, other);
    }
    if AllSafe(cfg, t) {
      assert Safe(cfg, t, r);
    }
  }
}
