/**
 The writes the code makes in two: the scheduler's sweep of lapsed leases, a fenced completion that could not
 read its item, a worker's start event, and the flip of a paused run. Of each half this module says exactly
 when it leaves a node with nothing that will act on it.
 */
module HalfWrites {
  import opened Wrappers
  import opened Workflow
  import opened EventLog
  import opened Fences
  import opened Approvals
  import opened Guard
  import opened RunStore
  import opened StoreHistory
  import opened LogEffects
  import opened Stranding

  /** The sweep's re-queue leaves its item waiting, and the failure it records later takes the node out of
      the slot: neither ever strands anything. */
  lemma SweepKeeps(s: Store, a: Action, r: RunId, n: NodeId)
    requires WellFormed(s) && Kept(s, r, n) && LiveRun(s, r)
    requires a.SweepRequeue? || a.SweepRecordFailure?
    ensures Kept(Apply(s, a), r, n)
  {
    var t := Apply(s, a);
    if a.SweepRecordFailure? && a.run == r {
      AppendKeeps(s, t, r, n, Event(NodeFailed(a.node, a.retryable), a.now));
    } else {
      SameLogKeeps(s, t, r, n);
    }
  }

  /** Something other than item `i` stands for the node. */
  predicate RestsOnAnother(s: Store, i: ItemId, r: RunId, n: NodeId) {
    (r, n) in s.dispatching || Withheld(s, r, n) || exists j | j in s.items :: j != i && Carries(s, j, r, n)
  }

  /** A settle of item `i` that records nothing. */
  predicate SettlesSilently(s: Store, t: Store, i: ItemId) {
    && i in s.items && i in t.items && t.items[i].status.Settled()
    && t == s.(items := s.items[i := t.items[i]])
  }

  lemma SilentSettleKeepsIff(s: Store, t: Store, i: ItemId, r: RunId, n: NodeId)
    requires SettlesSilently(s, t, i) && LiveRun(s, r) && Scheduled(s, r, n)
    ensures Kept(t, r, n) <==> RestsOnAnother(s, i, r, n)
  {
    forall j ensures j != i ==> (Carries(t, j, r, n) <==> Carries(s, j, r, n)) {}
    assert !Carries(t, i, r, n);
  }

  /** A fenced completion whose read of the item failed settles the lease and records no result. That
      keeps the promise exactly when the fence was not the one held, or the node did not rest on this
      lease alone. */
  lemma BlindSettleKeepsIff(s: Store, i: ItemId, fence: int, r: RunId, n: NodeId)
    requires LiveRun(s, r) && Scheduled(s, r, n) && Carried(s, r, n)
    ensures Kept(Apply(s, SettleBlind(i, fence)), r, n) <==> !HeldUnder(s, i, fence) || RestsOnAnother(s, i, r, n)
  {
    if HeldUnder(s, i, fence) {
      SilentSettleKeepsIff(s, Apply(s, SettleBlind(i, fence)), i, r, n);
    }
  }

  predicate Leased(s: Store, i: ItemId) {
    i in s.items && s.items[i].status.Claimed?
  }

  /** The sweep moves an exhausted item to the dead letters in one write and records the failure in a later
      one. Until then the promise is kept exactly when the item was not leased any more, or the node did not
      rest on it alone. */
  lemma DeadLetterKeepsIff(s: Store, i: ItemId, read: nat, r: RunId, n: NodeId)
    requires LiveRun(s, r) && Scheduled(s, r, n) && Carried(s, r, n)
    ensures Kept(Apply(s, SweepDeadLetter(i, read)), r, n)
        <==> !Leased(s, i) || RestsOnAnother(s, i, r, n)
  {
    if Leased(s, i) {
      SilentSettleKeepsIff(s, Apply(s, SweepDeadLetter(i, read)), i, r, n);
    }
  }

  /** Whatever happened before it, the failure event, once recorded, ends that state: its node waits for
      nothing any more, and the scheduler sees it failed or free. */
  lemma FailureEndsTheGap(s: Store, r: RunId, n: NodeId, retryable: bool, now: Time)
    requires r in s.runs
    ensures !Scheduled(Apply(s, SweepRecordFailure(r, n, retryable, now)), r, n)
  {
    ProgressAppend(LogOf(s, r), Event(NodeFailed(n, retryable), now), n);
  }

  /** The scheduler's fold has no free slot for the node: it is finished or scheduled, or something carries it. */
  predicate SlotTaken(s: Store, r: RunId, n: NodeId) {
    var p := ProgressOf(LogOf(s, r), n);
    p.completed || p.failed || p.scheduled || Carried(s, r, n)
  }

  /** The two events that close a node's slot after the write they belong to. */
  predicate ClosesLate(kind: EventKind, n: NodeId) {
    kind == RetryScheduled(n) || kind == NodeStarted(n)
  }

  lemma LateEventKeepsIff(s: Store, r: RunId, n: NodeId, kind: EventKind, now: Time)
    requires WellFormed(s) && LiveRun(s, r) && Kept(s, r, n) && ClosesLate(kind, n)
    ensures Kept(Append(s, r, kind, now), r, n) <==> SlotTaken(s, r, n)
  {
    var t := Append(s, r, kind, now);
    var log, e := LogOf(s, r), Event(kind, now);
    ProgressAppend(log, e, n);
    ApprovalFoldAppend(log, e, n);
    ProgressAgreesWithApprovals(log, n);
    forall i ensures Withheld(s, r, n) || (Carries(t, i, r, n) <==> Carries(s, i, r, n)) {
      if i in s.items && s.items[i].run == r && !Withheld(s, r, n) {
        ClearAcross(log, e, n, s.items[i].claimedAt);
      }
    }
    SameCarriers(s, t, r, n);
  }

  lemma SameCarriers(s: Store, t: Store, r: RunId, n: NodeId)
    requires t.dispatching == s.dispatching && Withheld(t, r, n) == Withheld(s, r, n)
    requires forall i :: Withheld(s, r, n) || (Carries(t, i, r, n) <==> Carries(s, i, r, n))
    ensures Carried(t, r, n) <==> Carried(s, r, n)
  {
    if (r, n) !in s.dispatching && !Withheld(s, r, n) {
      if i :| i in s.items && Carries(s, i, r, n) {
        assert Carries(t, i, r, n);
      }
      if i :| i in t.items && Carries(t, i, r, n) {
        assert Carries(s, i, r, n);
      }
    }
  }

  /** The scheduler's lease sweep re-queues the item in one write and records the retry in a later one.
      Where nothing was stranded, the late `RetryScheduled` strands its node exactly when the fold has the
      node neither finished nor scheduled by then and nothing carries it: the slot was freed in between, by
      an approval, and the event closes it again. */
  lemma LateRetryKeepsIff(s: Store, r: RunId, n: NodeId, now: Time)
    requires WellFormed(s) && LiveRun(s, r) && Kept(s, r, n)
    ensures Kept(Apply(s, SweepRecordRetry(r, n, now)), r, n) <==> SlotTaken(s, r, n)
  {
    LateEventKeepsIff(s, r, n, RetryScheduled(n), now);
  }

  /** An in-process worker records its start before anything checks its lease. A start recorded after the
      lease was lost does what a late retry does, under the same condition. */
  lemma StartedKeepsIff(s: Store, r: RunId, n: NodeId, now: Time)
    requires WellFormed(s) && LiveRun(s, r) && Kept(s, r, n)
    ensures Kept(Apply(s, RecordStarted(r, n, now)), r, n) <==> SlotTaken(s, r, n)
  {
    LateEventKeepsIff(s, r, n, NodeStarted(n), now);
  }

  // ---------------------------------------------------------------------------
  // The whole store
  // ---------------------------------------------------------------------------

  /** Item `i` may be settled without an event: its node is not scheduled in a live run, or rests on another. */
  predicate MayGoSilently(s: Store, i: ItemId) {
    && i in s.items
    && var it := s.items[i];
    && (LiveRun(s, it.run) && Scheduled(s, it.run, it.node) ==> RestsOnAnother(s, i, it.run, it.node))
  }

  /** What the store must be like for a half write to strand nothing. */
  ghost predicate Safeguard(s: Store, a: Action) {
    && (a.SettleBlind? && HeldUnder(s, a.item, a.fence) ==> MayGoSilently(s, a.item))
    && (a.SweepDeadLetter? && Leased(s, a.item) ==> MayGoSilently(s, a.item))
    && (a.SweepRecordRetry? && LiveRun(s, a.run) ==> SlotTaken(s, a.run, a.node))
    && (a.RecordStarted? && LiveRun(s, a.run) ==> SlotTaken(s, a.run, a.node))
    && (a.ResumeRun? && Terminal(s, a.run) ==> AllCarried(s, a.run))
  }

  ghost predicate AllCarried(s: Store, r: RunId) {
    forall n | Scheduled(s, r, n) :: Carried(s, r, n)
  }

  lemma SilentSettleStrandsNothingIff(s: Store, t: Store, i: ItemId)
    requires NothingStranded(s) && SettlesSilently(s, t, i)
    ensures NothingStranded(t) <==> MayGoSilently(s, i)
  {
    var it := s.items[i];
    forall r, n ensures Kept(t, r, n) || (r == it.run && n == it.node) {
      assert Kept(s, r, n);
      if LiveRun(s, r) && Scheduled(s, r, n) && !(r == it.run && n == it.node) {
        SilentSettleKeepsIff(s, t, i, r, n);
        assert !Carries(s, i, r, n);
      }
    }
    if LiveRun(s, it.run) && Scheduled(s, it.run, it.node) {
      SilentSettleKeepsIff(s, t, i, it.run, it.node);
    }
    assert NothingStranded(t) ==> Kept(t, it.run, it.node);
  }

  lemma LateEventStrandsNothingIff(s: Store, r: RunId, n: NodeId, kind: EventKind, now: Time)
    requires WellFormed(s) && NothingStranded(s) && ClosesLate(kind, n)
    ensures NothingStranded(Append(s, r, kind, now)) <==> (LiveRun(s, r) ==> SlotTaken(s, r, n))
  {
    var t := Append(s, r, kind, now);
    forall q, m ensures Kept(t, q, m) || (q == r && m == n && LiveRun(s, r)) {
      assert Kept(s, q, m);
      if LiveRun(s, q) && q != r {
        SameLogKeeps(s, t, q, m);
      } else if LiveRun(s, q) && m != n {
        AppendKeeps(s, t, r, m, Event(kind, now));
      }
    }
    assert Kept(s, r, n);
    if LiveRun(s, r) {
      LateEventKeepsIff(s, r, n, kind, now);
    }
    assert NothingStranded(t) ==> Kept(t, r, n);
  }

  lemma ResumeStrandsNothingIff(s: Store, r: RunId)
    requires NothingStranded(s)
    ensures NothingStranded(Apply(s, ResumeRun(r))) <==> Safeguard(s, ResumeRun(r))
  {
    var t := Apply(s, ResumeRun(r));
    forall q, n ensures LogOf(t, q) == LogOf(s, q) && (Carried(t, q, n) <==> Carried(s, q, n)) {
      forall i ensures Carries(t, i, q, n) <==> Carries(s, i, q, n) {}
      SameCarriers(s, t, q, n);
    }
    forall q, n | q != r || !Terminal(s, r) ensures Kept(t, q, n) {
      assert Kept(s, q, n);
    }
    if Terminal(s, r) && NothingStranded(t) {
      forall n | Scheduled(s, r, n) ensures Carried(s, r, n) {
        assert Kept(t, r, n);
      }
    }
  }

  lemma SweepStrandsNothing(s: Store, a: Action)
    requires WellFormed(s) && NothingStranded(s) && (a.SweepRequeue? || a.SweepRecordFailure?)
    ensures NothingStranded(Apply(s, a))
  {
    forall r, n ensures Kept(Apply(s, a), r, n) {
      assert Kept(s, r, n);
      if LiveRun(s, r) { SweepKeeps(s, a, r, n); }
    }
  }

  /** From a state in which nothing is stranded, a write that is half of one leaves nothing stranded exactly
      when its safeguard holds. */
  lemma HalfWriteStrandsNothingIff(s: Store, a: Action)
    requires WellFormed(s) && NothingStranded(s) && SplitWrite(a)
    ensures NothingStranded(Apply(s, a)) <==> Safeguard(s, a)
  {
    if a.SettleBlind? && HeldUnder(s, a.item, a.fence) {
      SilentSettleStrandsNothingIff(s, Apply(s, a), a.item);
    } else if a.SweepDeadLetter? && Leased(s, a.item) {
      SilentSettleStrandsNothingIff(s, Apply(s, a), a.item);
    } else if a.SweepRecordRetry? {
      LateEventStrandsNothingIff(s, a.run, a.node, RetryScheduled(a.node), a.now);
    } else if a.RecordStarted? {
      LateEventStrandsNothingIff(s, a.run, a.node, NodeStarted(a.node), a.now);
    } else if a.ResumeRun? {
      ResumeStrandsNothingIff(s, a.run);
    } else if a.SweepRequeue? || a.SweepRecordFailure? {
      SweepStrandsNothing(s, a);
    }
  }
}
