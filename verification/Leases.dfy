/**
 Lease fences over time: every later lease of an item carries a greater fence, and after a failover no
 lease handed out under the new term can be settled with a fence of the old primary, even if the store
 the new primary came up with had rolled the items' epochs back.
 */
module Leases {
  import opened Wrappers
  import opened EventLog
  import opened Fences
  import opened Approvals
  import opened Guard
  import opened RunStore
  import opened StoreHistory

  /** A fence some primary with term at most `term` could have minted. */
  predicate MintedBy(fence: int, term: nat) {
    fence < (term + 1) * EPOCHS
  }

  /** Every lease in the store was minted under a term the store has had. */
  predicate FencesOfTheTerm(s: Store) {
    forall i | i in s.items && s.items[i].status.Claimed? :: MintedBy(s.items[i].fence, s.term)
  }

  lemma ClaimMints(cfg: Config, s: Store, a: Action)
    requires WellFormed(s) && Legal(cfg, s, a)
    requires a.ClaimItem? || a.Reattach?
    requires s.term < TERMS
    requires a.item in s.items && Apply(s, a) != s
    ensures var it := Apply(s, a).items[a.item];
            && it.status.Claimed? && it.epoch == s.items[a.item].epoch + 1
            && it.fence == s.term * EPOCHS + it.epoch
  {
    FencesAreOrdered(s.term, s.items[a.item].epoch + 1, 0, 0);
  }

  /** The writes a worker reaches with an item and a fence. */
  predicate SettlesUnder(a: Action, i: ItemId, fence: int) {
    (a.CommitTurn? || a.SettleHeld? || a.SettleBlind? || a.WithdrawItem?) && a.item == i && a.fence == fence
  }

  lemma StaleFenceWritesNothing(s: Store, i: ItemId, fence: int, a: Action)
    requires !HeldUnder(s, i, fence) && SettlesUnder(a, i, fence)
    ensures Apply(s, a) == s
  {
  }

  /** Whatever is sent under that fence changes nothing. */
  ghost predicate FenceIsDead(s: Store, i: ItemId, fence: int) {
    forall a | SettlesUnder(a, i, fence) :: Apply(s, a) == s
  }

  lemma UnheldIsDead(s: Store, i: ItemId, fence: int)
    requires !HeldUnder(s, i, fence)
    ensures FenceIsDead(s, i, fence)
  {
    forall a | SettlesUnder(a, i, fence) ensures Apply(s, a) == s {
      StaleFenceWritesNothing(s, i, fence, a);
    }
  }

  predicate HandsOut(a: Action) {
    a.ClaimItem? || a.Reattach?
  }

  /** Item `i` is leased after a write only as it was leased before it. */
  predicate LeaseKept(s: Store, t: Store, i: ItemId) {
    i in t.items && t.items[i].status.Claimed? ==>
      && i in s.items && s.items[i].status.Claimed?
      && t.items[i].fence == s.items[i].fence && t.items[i].epoch == s.items[i].epoch
  }

  lemma ExpiryKeepsLeases(s: Store, a: Action, i: ItemId)
    requires a.ExpireLease?
    ensures LeaseKept(s, Apply(s, a), i)
  {
  }

  lemma CommitKeepsLeases(s: Store, a: Action, i: ItemId)
    requires a.CommitTurn?
    ensures LeaseKept(s, Apply(s, a), i)
  {
  }

  lemma SettlingKeepsLeases(s: Store, a: Action, i: ItemId)
    requires WritesOneItem(a) && !HandsOut(a) && !a.ExpireLease? && !a.CommitTurn?
    ensures LeaseKept(s, Apply(s, a), i)
  {
  }

  lemma ConditionalAppendKeepsItems(s: Store, a: Action)
    requires a.RecordDecision? || a.RecordExpiry? || a.RecordEscalation?
    ensures Apply(s, a).items == s.items
  {
  }

  lemma GuardAppendKeepsItems(s: Store, a: Action)
    requires a.RaiseRequest? || a.RecordViolation? || a.RecordUnknown?
    ensures Apply(s, a).items == s.items
  {
  }

  lemma NodeAppendKeepsItems(s: Store, a: Action)
    requires a.FailRejectedNode? || a.SkipNode? || a.SweepRecordFailure? || a.SweepRecordRetry? || a.RecordStarted?
    ensures Apply(s, a).items == s.items
  {
  }

  lemma AppendingKeepsLeases(s: Store, a: Action, i: ItemId)
    requires AppendsOnly(a)
    ensures LeaseKept(s, Apply(s, a), i)
  {
    if a.RecordDecision? || a.RecordExpiry? || a.RecordEscalation? {
      ConditionalAppendKeepsItems(s, a);
    } else if a.RaiseRequest? || a.RecordViolation? || a.RecordUnknown? {
      GuardAppendKeepsItems(s, a);
    } else {
      NodeAppendKeepsItems(s, a);
    }
  }

  lemma RestKeepsLeases(s: Store, a: Action, i: ItemId)
    requires !WritesOneItem(a) && !AppendsOnly(a)
    ensures LeaseKept(s, Apply(s, a), i)
  {
  }

  /** Any write that hands out nothing leaves every claimed item exactly the lease it had. */
  lemma OthersKeepLeases(s: Store, a: Action, i: ItemId)
    requires !HandsOut(a)
    ensures LeaseKept(s, Apply(s, a), i)
  {
    if a.ExpireLease? {
      ExpiryKeepsLeases(s, a, i);
    } else if a.CommitTurn? {
      CommitKeepsLeases(s, a, i);
    } else if WritesOneItem(a) {
      SettlingKeepsLeases(s, a, i);
    } else if AppendsOnly(a) {
      AppendingKeepsLeases(s, a, i);
    } else {
      RestKeepsLeases(s, a, i);
    }
  }

  lemma OtherItemsKept(s: Store, a: Action, i: ItemId)
    requires HandsOut(a) && (i != a.item || Apply(s, a) == s)
    ensures i in Apply(s, a).items <==> i in s.items
    ensures i in s.items ==> Apply(s, a).items[i] == s.items[i]
    ensures Apply(s, a).term == s.term
  {
  }

  lemma StepKeepsTermFences(cfg: Config, s: Store, a: Action)
    requires WellFormed(s) && FencesOfTheTerm(s) && Legal(cfg, s, a) && Apply(s, a).term < TERMS
    ensures FencesOfTheTerm(Apply(s, a))
  {
    var t := Apply(s, a);
    ApplyExtends(cfg, s, a);
    forall i | i in t.items && t.items[i].status.Claimed? ensures MintedBy(t.items[i].fence, t.term) {
      if !HandsOut(a) {
        OthersKeepLeases(s, a, i);
      } else if i == a.item && t != s {
        ClaimMints(cfg, s, a);
      } else {
        OtherItemsKept(s, a, i);
      }
    }
  }

  /** The leases item `i` may hold once its epoch has passed `epoch`: only fences above `floor`. */
  predicate Above(s: Store, i: ItemId, epoch: nat, floor: int) {
    i in s.items && epoch <= s.items[i].epoch
    && (s.items[i].status.Claimed? && s.items[i].epoch > epoch ==> s.items[i].fence > floor)
  }

  lemma StepStaysAbove(cfg: Config, s: Store, a: Action, i: ItemId, epoch: nat, floor: int)
    requires WellFormed(s) && Legal(cfg, s, a) && s.term < TERMS
    requires Above(s, i, epoch, floor) && floor <= s.term * EPOCHS + epoch
    ensures Above(Apply(s, a), i, epoch, floor)
  {
    var t := Apply(s, a);
    ApplyExtends(cfg, s, a);
    assert ItemExtends(s.items[i], t.items[i]);
    if t.items[i].status.Claimed? && t.items[i].epoch > epoch {
      if !HandsOut(a) {
        OthersKeepLeases(s, a, i);
      } else if i == a.item && t != s {
        ClaimMints(cfg, s, a);
      } else {
        OtherItemsKept(s, a, i);
      }
    }
  }

  lemma {:induction false} TraceStaysAbove(cfg: Config, s: Store, acts: seq<Action>, i: ItemId, epoch: nat, floor: int)
    requires WellFormed(s) && ValidTrace(cfg, s, acts) && After(s, acts).term < TERMS
    requires Above(s, i, epoch, floor) && floor <= s.term * EPOCHS + epoch
    ensures Above(After(s, acts), i, epoch, floor)
    decreases |acts|
  {
    if |acts| > 0 {
      var t := Apply(s, acts[0]);
      ApplyExtends(cfg, s, acts[0]);
      TraceExtends(cfg, t, acts[1..]);
      StepStaysAbove(cfg, s, acts[0], i, epoch, floor);
      TraceStaysAbove(cfg, t, acts[1..], i, epoch, floor);
    }
  }

  lemma {:induction false} TraceKeepsTermFences(cfg: Config, s: Store, acts: seq<Action>)
    requires WellFormed(s) && FencesOfTheTerm(s) && ValidTrace(cfg, s, acts) && After(s, acts).term < TERMS
    ensures FencesOfTheTerm(After(s, acts))
    decreases |acts|
  {
    if |acts| > 0 {
      var t := Apply(s, acts[0]);
      ApplyExtends(cfg, s, acts[0]);
      TraceExtends(cfg, t, acts[1..]);
      StepKeepsTermFences(cfg, s, acts[0]);
      TraceKeepsTermFences(cfg, t, acts[1..]);
    }
  }

  /** Within one primary, a lease handed out later has a greater fence, so the fence of a lost lease
      settles nothing once the item was handed out again, whatever happened in between. */
  lemma {:induction false} LostFenceStaysLost(cfg: Config, s: Store, acts: seq<Action>, i: ItemId, fence: int)
    requires WellFormed(s) && ValidTrace(cfg, s, acts) && After(s, acts).term < TERMS
    requires HeldUnder(s, i, fence) && fence <= s.term * EPOCHS + s.items[i].epoch
    requires i in After(s, acts).items && After(s, acts).items[i].epoch > s.items[i].epoch
    ensures var t := After(s, acts);
            && (t.items[i].status.Claimed? ==> t.items[i].fence > fence)
            && !HeldUnder(t, i, fence) && FenceIsDead(t, i, fence)
  {
    TraceExtends(cfg, s, acts);
    assert ItemExtends(s.items[i], After(s, acts).items[i]);
    TraceStaysAbove(cfg, s, acts, i, s.items[i].epoch, fence);
    UnheldIsDead(After(s, acts), i, fence);
  }

  /** Failover. `primary` is any store the old primary reached, `copy` whatever store the new primary came up
      with: an earlier state, with epochs rolled back, or anything else well formed. Once the term was
      raised above the old one, an item handed out again by the new primary can be settled with no fence
      the old primary ever handed out. */
  lemma {:induction false} OldFencesCannotSettle(cfg: Config, primary: Store, copy: Store, acts: seq<Action>, i: ItemId, j: ItemId, fence: int)
    requires FencesOfTheTerm(primary) && HeldUnder(primary, j, fence)
    requires WellFormed(copy) && primary.term < copy.term
    requires ValidTrace(cfg, copy, acts) && After(copy, acts).term < TERMS
    requires i in copy.items && i in After(copy, acts).items
    requires After(copy, acts).items[i].epoch > copy.items[i].epoch
    ensures var t := After(copy, acts);
            && !HeldUnder(t, i, fence) && FenceIsDead(t, i, fence)
            && (t.items[i].status.Claimed? ==> t.items[i].fence > fence)
  {
    TraceExtends(cfg, copy, acts);
    assert ItemExtends(copy.items[i], After(copy, acts).items[i]);
    assert MintedBy(fence, primary.term);
    assert (primary.term + 1) * EPOCHS <= copy.term * EPOCHS;
    TraceStaysAbove(cfg, copy, acts, i, copy.items[i].epoch, fence);
    UnheldIsDead(After(copy, acts), i, fence);
  }

  /** A lease that only lapsed is the worker's to take back: the re-attached lease is held by the same worker,
      under a fence two epochs on, it costs no attempt, it still goes back to the same claim, and a worker that
      was told the old fence counts as told the new one. */
  lemma LapsedLeaseComesBack(s: Store, i: ItemId, worker: WorkerId, fence: int, now: Time)
    requires WellFormed(s) && HeldUnder(s, i, fence) && s.items[i].worker == Some(worker)
    requires LiveRun(s, s.items[i].run) && s.items[i].attempt + 1 < s.items[i].maxAttempts
    requires s.items[i].epoch + 2 < EPOCHS
    ensures var lapsed := Apply(s, ExpireLease(i, now));
            var back := Apply(lapsed, Reattach(i, worker, fence));
            && lapsed.items[i].status.Queued? && CanReattach(lapsed, i, worker, fence)
            && back.items[i].status.Claimed? && back.items[i].worker == Some(worker)
            && back.items[i].fence == Mint(s.term, s.items[i].epoch + 2) && back.items[i].fence != fence
            && back.items[i].attempt == s.items[i].attempt && back.items[i].heldSince == s.items[i].heldSince
            && ((i, fence) in s.granted ==> (i, back.items[i].fence) in back.granted)
  {
    assert ItemWellFormed(s, i);
    EpochSurvivesMinting(s.term, s.items[i].epoch + 2);
  }

  /** Once somebody was handed the item in between, it is not: the old fence takes nothing back. */
  lemma ReclaimedLeaseDoesNot(s: Store, i: ItemId, worker: WorkerId, fence: int, other: WorkerId, now: Time)
    requires WellFormed(s) && HeldUnder(s, i, fence) && s.items[i].epoch + 2 < EPOCHS
    requires LiveRun(s, s.items[i].run) && s.items[i].attempt + 1 < s.items[i].maxAttempts
    ensures var taken := Apply(Apply(s, ExpireLease(i, now)), ClaimItem(i, other));
            && taken.items[i].worker == Some(other)
            && Apply(taken, Reattach(i, worker, fence)) == taken
            && !HeldUnder(taken, i, fence)
            && var again := Apply(taken, ExpireLease(i, now)); Apply(again, Reattach(i, worker, fence)) == again
  {
    assert ItemWellFormed(s, i);
    EpochSurvivesMinting(s.term, s.items[i].epoch + 2);
    var taken := Apply(Apply(s, ExpireLease(i, now)), ClaimItem(i, other));
    assert FenceEpoch(taken.items[i].fence) == s.items[i].epoch + 2;
  }
}
