/**
 The route handlers (runtime/api/src/routes.rs, runtime/api/src/approvals.rs), call by call. Between any
 two backend calls a handler makes, anybody else may make any sequence of legal writes, and reads may
 fail. Each handler is proved to make only legal writes, whatever happened since the reads its
 decision rests on, and its contract says which writes those are.
 */
module Routes {
  import opened Wrappers
  import opened Workflow
  import opened EventLog
  import opened Fences
  import opened Approvals
  import opened Guard
  import opened RunStore
  import opened StoreHistory
  import opened LogEffects
  import opened RunSafety
  import opened Backend

  /** What a handler does not control: the writes of others in the gap before its `k`-th call, whether
      that call fails before it does anything, and the clock at that call. */
  datatype World = World(others: nat -> seq<Action>, fails: nat -> bool, clock: nat -> Time)

  /** Nobody else writes and nothing fails: then a handler's answer is determined. */
  ghost predicate Quiet(w: World) {
    forall k :: w.others(k) == [] && !w.fails(k)
  }

  // ---------------------------------------------------------------------------
  // Evidence
  // ---------------------------------------------------------------------------

  lemma FireEvidence(s1: Store, s2: Store, i: ItemId, def: NodeDef, tenant: Rule, deadline: Deadline)
    requires WellFormed(s1) && Later(s1, s2) && DefOf(s1, i) == Some(def)
    ensures var it := s1.items[i];
            var log1, log2 := LogOf(s1, it.run), LogOf(s2, it.run);
            && i in s2.items && |log1| <= |log2|
            && Fired(s2, i, tenant, |log1|, |log2|,
                     GuardFire(def, tenant, log1, it.run, it.node, it.payload, Completions(log2, it.node), deadline),
                     deadline)
  {
    LaterIs(s1, s2);
    DefinitionIsStable(s1, s2, i);
    var it := s1.items[i];
    assert ItemExtends(it, s2.items[i]);
    assert RunExtends(s1.runs[it.run], s2.runs[it.run]);
    var log1, log2 := LogOf(s1, it.run), LogOf(s2, it.run);
    assert log2[..|log1|] == log1 && log2[..|log2|] == log2;
  }

  lemma AllowIsEvidence(s: Store, i: ItemId, tenant: Rule, k: nat, m: nat, deadline: Deadline, from: nat)
    requires Fired(s, i, tenant, k, m, Allow, deadline) && from <= k
    ensures AllowedSince(s, i, from)
  {
    assert Fired(s, i, tenant, k, m, Allow, NoDeadline);
  }

  lemma RaiseStaysLegal(cfg: Config, s: Store, t: Store, i: ItemId, tenant: Rule, k: nat, m: nat, request: Request,
                        now: Time)
    requires WellFormed(s) && Later(s, t)
    requires Fired(s, i, tenant, k, m, Held(Some(request)), Deadline(request.expiresAt, request.escalateAt))
    ensures Legal(cfg, t, RaiseRequest(i, request, now))
  {
    LaterIs(s, t);
    FiredIsStable(s, t, i, tenant, k, m, Held(Some(request)), Deadline(request.expiresAt, request.escalateAt));
    assert i in t.items && 0 <= k <= m <= |LogOf(t, t.items[i].run)|;
  }

  lemma CompleteEvidence(s1: Store, s2: Store, i: ItemId, def: NodeDef, tenant: Rule)
    requires WellFormed(s1) && Later(s1, s2) && DefOf(s1, i) == Some(def)
    requires var it := s1.items[i];
             GuardComplete(def, tenant, LogOf(s1, it.run), it.run, it.node, it.payload,
                           Completions(LogOf(s2, it.run), it.node)).Allow?
    ensures WasCompletable(s2, i)
  {
    LaterIs(s1, s2);
    DefinitionIsStable(s1, s2, i);
    var it := s1.items[i];
    assert ItemExtends(it, s2.items[i]);
    assert RunExtends(s1.runs[it.run], s2.runs[it.run]);
    var log1, log2 := LogOf(s1, it.run), LogOf(s2, it.run);
    assert log2[..|log1|] == log1 && log2[..|log2|] == log2;
    assert Completable(s2, i, tenant, |log1|, |log2|);
  }

  /** The node was withheld in a log read under the lease, so the held settle is legal from then on. */
  lemma WithheldSince(lease: Store, s: Store, t: Store, i: ItemId, fence: int)
    requires WellFormed(lease) && WellFormed(s) && WellFormed(t) && Later(lease, s) && Later(s, t)
    requires HeldUnder(lease, i, fence)
    requires ApprovalFold(LogOf(s, lease.items[i].run), lease.items[i].node).Withholds()
    ensures HeldUnder(t, i, fence) ==> SeenWithheld(t, i)
  {
    LaterIs(lease, s);
    LaterIs(s, t);
    ExtendsTransitive(lease, s, t);
    if HeldUnder(t, i, fence) {
      FenceIdentifiesLease(lease, t, i, fence);
      assert ItemWellFormed(lease, i);
      var it := lease.items[i];
      assert ItemExtends(it, s.items[i]) && ItemExtends(it, t.items[i]);
      assert RunExtends(lease.runs[it.run], s.runs[it.run]) && RunExtends(s.runs[it.run], t.runs[it.run]);
      var k := |LogOf(s, it.run)|;
      assert LogOf(t, it.run)[..k] == LogOf(s, it.run);
      assert t.items[i].claimedAt <= k;
    }
  }

  lemma DefinitionStays(s: Store, t: Store, i: ItemId)
    requires WellFormed(s) && Later(s, t) && DefOf(s, i).Some?
    ensures DefOf(t, i) == DefOf(s, i)
  {
    LaterIs(s, t);
    DefinitionIsStable(s, t, i);
  }

  lemma AllowedStays(s: Store, t: Store, i: ItemId, from: nat)
    requires WellFormed(s) && Later(s, t) && AllowedSince(s, i, from)
    ensures AllowedSince(t, i, from)
  {
    LaterIs(s, t);
    AllowedIsStable(s, t, i, from);
  }

  /** What a read made since the lease allowed stays allowed since the lease. */
  lemma AllowedUnder(lease: Store, read: Store, decided: Store, now: Store, i: ItemId, tenant: Rule, m: nat,
                     deadline: Deadline)
    requires WellFormed(lease) && WellFormed(decided) && Later(lease, read) && Later(decided, now) && i in lease.items
    requires lease.items[i].heldSince <= |LogOf(lease, lease.items[i].run)|
    requires Fired(decided, i, tenant, |LogOf(read, lease.items[i].run)|, m, Allow, deadline)
    ensures AllowedSince(now, i, lease.items[i].heldSince)
  {
    LogSince(lease, read, i);
    AllowIsEvidence(decided, i, tenant, |LogOf(read, lease.items[i].run)|, m, deadline, lease.items[i].heldSince);
    AllowedStays(decided, now, i, lease.items[i].heldSince);
  }

  /** A log never gets shorter than it was when the lease was handed out. */
  lemma LogSince(lease: Store, s: Store, i: ItemId)
    requires WellFormed(lease) && Later(lease, s) && i in lease.items
    ensures |LogOf(lease, lease.items[i].run)| <= |LogOf(s, lease.items[i].run)|
  {
    LaterIs(lease, s);
    assert ItemWellFormed(lease, i);
    assert RunExtends(lease.runs[lease.items[i].run], s.runs[lease.items[i].run]);
  }

  /** What the gate allowed under a lease may be released under its fence, however late. */
  lemma AllowedMayBeReleased(lease: Store, s: Store, i: ItemId, fence: int)
    requires WellFormed(lease) && WellFormed(s) && Later(lease, s) && HeldUnder(lease, i, fence)
    requires AllowedSince(s, i, lease.items[i].heldSince)
    ensures MayRelease(s, i, fence)
  {
    LaterIs(lease, s);
    assert ItemWellFormed(lease, i) && ItemExtends(lease.items[i], s.items[i]);
    LeaseStartStays(lease, s, i, fence);
    var tenant: Rule, k, m :| lease.items[i].heldSince <= k <= m <= |LogOf(s, s.items[i].run)|
                              && Fired(s, i, tenant, k, m, Allow, NoDeadline);
    assert Fired(s, i, tenant, k, m, Allow, NoDeadline);
  }

  lemma EndedStays(s: Store, t: Store, r: RunId)
    requires Later(s, t) && Terminal(s, r)
    ensures Terminal(t, r) && t.runs[r].status == s.runs[r].status
  {
    LaterIs(s, t);
  }

  lemma CoordinatesStay(s: Store, t: Store, i: ItemId)
    requires Later(s, t) && i in s.items
    ensures i in t.items && t.items[i].run == s.items[i].run && t.items[i].node == s.items[i].node
    ensures t.items[i].payload == s.items[i].payload
    ensures s.items[i].run in s.runs ==> t.items[i].run in t.runs
  {
    LaterIs(s, t);
    assert ItemExtends(s.items[i], t.items[i]);
  }

  // ---------------------------------------------------------------------------
  // What a withheld claim may write
  // ---------------------------------------------------------------------------

  /** The settles a withheld claim may make: of its own item, and never with a result. */
  predicate WithholdingWrite(i: ItemId, wi: Item, a: Action) {
    || (a.RecordViolation? && a.run == wi.run && a.node == wi.node)
    || (a.RaiseRequest? && a.item == i)
    || (a.SettleHeld? && a.item == i && a.fence == wi.fence)
    || (a.CommitTurn? && a.item == i && a.fence == wi.fence && a.run == wi.run && a.node == wi.node && a.outcome.Refused?)
    || (a.FailItem? && a.item == i)
  }

  predicate OnlyWithholding(i: ItemId, wi: Item, before: seq<Action>, after: seq<Action>) {
    before <= after && forall k | |before| <= k < |after| :: WithholdingWrite(i, wi, after[k])
  }

  lemma WithholdingOne(i: ItemId, wi: Item, own: seq<Action>, a: Action)
    requires WithholdingWrite(i, wi, a)
    ensures OnlyWithholding(i, wi, own, own + [a])
  {
  }

  lemma WithholdingMore(i: ItemId, wi: Item, own: seq<Action>, mid: seq<Action>, end: seq<Action>)
    requires OnlyWithholding(i, wi, own, mid) && OnlyWithholding(i, wi, mid, end)
    ensures OnlyWithholding(i, wi, own, end)
  {
  }

  // ---------------------------------------------------------------------------
  // The firing guard
  // ---------------------------------------------------------------------------

  /** What the firing guard decides of one state of the store. */
  function GuardedBy(s: Store, def: NodeDef, tenant: Rule, wi: Item, deadline: Deadline): Guard.Outcome {
    var log := LogOf(s, wi.run);
    GuardFire(def, tenant, log, wi.run, wi.node, wi.payload, Completions(log, wi.node), deadline)
  }

  /** The action that running item `i` on this store would perform, as an approval would have to name it. */
  function ActionOf(s: Store, i: ItemId, def: NodeDef): Binding
    requires i in s.items
  {
    var it := s.items[i];
    ActionDigest(it.run, Completions(LogOf(s, it.run), it.node), it.node, def.definition, it.payload)
  }

  /** The item's node may run: the policies permit it, or they gate it and its latest request was approved for
      exactly this action. */
  predicate MayFire(s: Store, i: ItemId, tenant: Rule) {
    var def := DefOf(s, i);
    && def.Some?
    && (|| Says(def.value, tenant, Permit)
        || (Says(def.value, tenant, Gate)
            && ApprovedFor(LogOf(s, s.items[i].run), s.items[i].node, ActionOf(s, i, def.value))))
  }

  /** What the guard writes when it does not let the node run. */
  function GuardWrites(s: Store, i: ItemId, def: NodeDef, tenant: Rule, deadline: Deadline, now: Time): seq<Action>
    requires i in s.items
  {
    var it := s.items[i];
    var log := LogOf(s, it.run);
    if Says(def, tenant, Deny) then [RecordViolation(it.run, it.node, now)]
    else if !Says(def, tenant, Gate) || !Readable(log) || OpenOrRefused(log, it.node)
            || ApprovedFor(log, it.node, ActionOf(s, i, def)) then []
    else [RaiseRequest(i, Request(Some(ActionOf(s, i, def)), None, Some(Completions(log, it.node)),
                                  deadline.expiresAt, deadline.escalateAt), now)]
  }

  /** The writes that go with an outcome of the firing guard. */
  function WritesFor(i: ItemId, outcome: Guard.Outcome, now: Time): seq<Action> {
    if outcome.Held? && outcome.raised.Some? then [RaiseRequest(i, outcome.raised.value, now)] else []
  }

  lemma GuardWritesAre(s: Store, i: ItemId, wi: Item, def: NodeDef, tenant: Rule, deadline: Deadline, now: Time)
    requires i in s.items && s.items[i].run == wi.run && s.items[i].node == wi.node && s.items[i].payload == wi.payload
    ensures var outcome := GuardedBy(s, def, tenant, wi, deadline);
            GuardWrites(s, i, def, tenant, deadline, now)
            == if outcome.Blocked? then [RecordViolation(wi.run, wi.node, now)] else WritesFor(i, outcome, now)
  {
    var log := LogOf(s, wi.run);
    FiresIff(def, tenant, log, wi.run, wi.node, wi.payload, Completions(log, wi.node), deadline);
  }

  lemma WritesForWithhold(i: ItemId, wi: Item, own: seq<Action>, outcome: Guard.Outcome, now: Time)
    ensures OnlyWithholding(i, wi, own, own + WritesFor(i, outcome, now))
  {
  }

  /** `guard_item` in its firing mode, for an item leased to the caller since the store was `lease`. It
      records a violation for a block and a request for a hold that had none, and nothing else. */
  method GuardItem(b: StateBackend, i: ItemId, wi: Item, def: NodeDef, tenant: Rule, deadline: Deadline, w: World,
                   ghost lease: Store)
    returns (outcome: Guard.Outcome)
    requires b.Valid() && WellFormed(lease) && Later(lease, b.State())
    requires HeldUnder(lease, i, wi.fence) && lease.items[i] == wi && wi.heldSince <= |LogOf(lease, wi.run)|
    requires DefOf(lease, i) == Some(def)
    modifies b
    ensures b.Valid() && Later(old(b.State()), b.State())
    ensures OnlyWithholding(i, wi, old(b.own), b.own)
    ensures !outcome.Blocked? ==> b.own == old(b.own) + WritesFor(i, outcome, w.clock(3))
    ensures outcome.Allow? ==> AllowedSince(b.State(), i, wi.heldSince)
    ensures outcome.Blocked? <==> Says(def, tenant, Deny)
    ensures Says(def, tenant, Permit) ==> outcome.Allow?
    ensures outcome.Held? ==> (HeldUnder(b.State(), i, wi.fence) ==> SeenWithheld(b.State(), i))
    ensures Quiet(w) ==> outcome == GuardedBy(old(b.State()), def, tenant, wi, deadline)
    ensures Quiet(w) ==> HeldUnder(b.State(), i, wi.fence) == old(HeldUnder(b.State(), i, wi.fence))
    ensures Quiet(w) && outcome.Allow? ==> b.State() == old(b.State())
    ensures i in old(b.items)
    ensures Quiet(w) ==>
              b.own == old(b.own) + GuardWrites(old(b.State()), i, def, tenant, deadline, w.clock(3))
  {
    ghost var s0 := b.State();
    DefinitionStays(lease, s0, i);
    CoordinatesStay(lease, s0, i);
    GuardWritesAre(s0, i, wi, def, tenant, deadline, w.clock(3));
    match Evaluate(def, tenant)
    case Deny =>
      RecordBlock(b, i, wi, w);
      outcome := Blocked;
    case Permit =>
      FireEvidence(s0, s0, i, def, tenant, NoDeadline);
      LogSince(lease, s0, i);
      AllowIsEvidence(s0, i, tenant, |LogOf(s0, wi.run)|, |LogOf(s0, wi.run)|, NoDeadline, wi.heldSince);
      outcome := Allow;
    case Gate =>
      ghost var own0 := b.own;
      outcome := RequireRecordedApproval(b, i, wi, def, tenant, deadline, w, lease);
      WritesForWithhold(i, wi, own0, outcome, w.clock(3));
  }

  /** Best effort: the block stands whether or not the violation lands. */
  method RecordBlock(b: StateBackend, i: ItemId, wi: Item, w: World)
    requires b.Valid()
    modifies b
    ensures b.Valid() && Later(old(b.State()), b.State())
    ensures OnlyWithholding(i, wi, old(b.own), b.own)
    ensures b.own == old(b.own) + if w.fails(3) then [] else [RecordViolation(wi.run, wi.node, w.clock(3))]
    ensures Quiet(w) ==> b.items == old(b.items)
  {
    ghost var s0 := b.State();
    b.Interfere(w.others(3));
    ghost var s1 := b.State();
    if !w.fails(3) {
      WithholdingOne(i, wi, b.own, RecordViolation(wi.run, wi.node, w.clock(3)));
      b.AppendViolation(wi.run, wi.node, w.clock(3));
      LaterTransitive(s0, s1, b.State());
    }
  }

  /** The two reads and the decision: the log, then the count of completions. */
  method Decide(b: StateBackend, i: ItemId, wi: Item, def: NodeDef, tenant: Rule, deadline: Deadline, w: World)
    returns (outcome: Guard.Outcome)
    requires b.Valid() && DefOf(b.State(), i) == Some(def) && Evaluate(def, tenant) == Gate
    requires i in b.items && b.items[i].run == wi.run && b.items[i].node == wi.node && b.items[i].payload == wi.payload
    modifies b
    ensures b.Valid() && Later(old(b.State()), b.State()) && b.own == old(b.own) && !outcome.Blocked?
    ensures var k, m := old(|LogOf(b.State(), wi.run)|), |LogOf(b.State(), wi.run)|;
            !outcome.Unavailable? ==> k <= m && Fired(b.State(), i, tenant, k, m, outcome, deadline)
    ensures outcome == Held(None) ==> ApprovalFold(LogOf(old(b.State()), wi.run), wi.node).Withholds()
    ensures Quiet(w) ==> b.State() == old(b.State()) && outcome == GuardedBy(old(b.State()), def, tenant, wi, deadline)
  {
    ghost var s0 := b.State();
    LaterIs(s0, s0);
    if w.fails(1) { return Unavailable; }
    var log := b.GetEvents(wi.run);
    b.Interfere(w.others(1));
    if w.fails(2) { return Unavailable; }
    var step := b.CountNodeCompletions(wi.run, wi.node);
    outcome := RequireApproval(def, log, wi.run, wi.node, wi.payload, step, deadline);
    FireEvidence(s0, b.State(), i, def, tenant, deadline);
  }

  /** `require_approval`, step by step: read the log, count the completions, decide, raise the request. */
  method RequireRecordedApproval(b: StateBackend, i: ItemId, wi: Item, def: NodeDef, tenant: Rule, deadline: Deadline,
                                 w: World, ghost lease: Store)
    returns (outcome: Guard.Outcome)
    requires b.Valid() && WellFormed(lease) && Later(lease, b.State())
    requires HeldUnder(lease, i, wi.fence) && lease.items[i] == wi && wi.heldSince <= |LogOf(lease, wi.run)|
    requires DefOf(b.State(), i) == Some(def) && Evaluate(def, tenant) == Gate
    requires i in b.items && b.items[i].run == wi.run && b.items[i].node == wi.node && b.items[i].payload == wi.payload
    modifies b
    ensures b.Valid() && Later(old(b.State()), b.State())
    ensures b.own == old(b.own) + WritesFor(i, outcome, w.clock(3))
    ensures outcome.Allow? ==> AllowedSince(b.State(), i, wi.heldSince)
    ensures !outcome.Blocked?
    ensures outcome.Held? ==> (HeldUnder(b.State(), i, wi.fence) ==> SeenWithheld(b.State(), i))
    ensures Quiet(w) ==> outcome == GuardedBy(old(b.State()), def, tenant, wi, deadline)
    ensures Quiet(w) ==> b.items == old(b.items)
    ensures Quiet(w) && outcome.Allow? ==> b.State() == old(b.State())
  {
    ghost var s0 := b.State();
    outcome := Decide(b, i, wi, def, tenant, deadline, w);
    ghost var s1 := b.State();
    ghost var k, m := |LogOf(s0, wi.run)|, |LogOf(s1, wi.run)|;
    CoordinatesStay(s0, s1, i);
    b.Interfere(w.others(2));
    ghost var s2 := b.State();
    LaterTransitive(s0, s1, s2);
    match outcome
    case Allow =>
      AllowedUnder(lease, s0, s1, s2, i, tenant, m, deadline);
    case Held(Some(request)) =>
      RaiseStaysLegal(b.config, s1, s2, i, tenant, k, m, request, w.clock(3));
      LaterTransitive(lease, s0, s2);
      outcome := Raise(b, i, wi, request, w, lease);
      LaterTransitive(s0, s2, b.State());
    case Held(None) =>
      WithheldSince(lease, s0, s2, i, wi.fence);
    case Unavailable =>
  }

  /** A request that cannot be recorded holds nothing: the guard answers that it cannot tell. */
  method Raise(b: StateBackend, i: ItemId, wi: Item, request: Request, w: World, ghost lease: Store)
    returns (outcome: Guard.Outcome)
    requires b.Valid() && WellFormed(lease) && Later(lease, b.State())
    requires HeldUnder(lease, i, wi.fence) && lease.items[i] == wi && wi.heldSince <= |LogOf(lease, wi.run)|
    requires Legal(b.config, b.State(), RaiseRequest(i, request, w.clock(3)))
    modifies b
    ensures b.Valid() && Later(old(b.State()), b.State())
    ensures outcome == if w.fails(3) then Unavailable else Held(Some(request))
    ensures b.own == old(b.own) + WritesFor(i, outcome, w.clock(3)) && b.items == old(b.items)
    ensures outcome.Held? ==> (HeldUnder(b.State(), i, wi.fence) ==> SeenWithheld(b.State(), i))
  {
    LaterIs(b.State(), b.State());
    if w.fails(3) { return Unavailable; }
    RecordRequest(b, i, wi, request, w.clock(3), lease);
    outcome := Held(Some(request));
  }

  /** `record_request`. */
  method RecordRequest(b: StateBackend, i: ItemId, wi: Item, request: Request, now: Time, ghost lease: Store)
    requires b.Valid() && WellFormed(lease) && Later(lease, b.State())
    requires HeldUnder(lease, i, wi.fence) && lease.items[i] == wi && wi.heldSince <= |LogOf(lease, wi.run)|
    requires Legal(b.config, b.State(), RaiseRequest(i, request, now))
    modifies b
    ensures b.Valid() && Later(old(b.State()), b.State())
    ensures b.own == old(b.own) + [RaiseRequest(i, request, now)] && b.items == old(b.items)
    ensures HeldUnder(b.State(), i, wi.fence) ==> SeenWithheld(b.State(), i)
  {
    ghost var s0 := b.State();
    b.AppendRequest(i, request, now);
    ghost var s1 := b.State();
    assert s1 == Apply(s0, RaiseRequest(i, request, now));
    LaterTransitive(lease, s0, s1);
    CoordinatesStay(lease, s0, i);
    RaisedIsWithheld(s0, i, request, now);
    WithheldSince(lease, s1, s1, i, wi.fence);
  }

  lemma RaisedIsWithheld(s: Store, i: ItemId, request: Request, now: Time)
    requires WellFormed(s) && i in s.items
    ensures ApprovalFold(LogOf(Apply(s, RaiseRequest(i, request, now)), s.items[i].run), s.items[i].node).Withholds()
  {
    assert ItemWellFormed(s, i);
    var it := s.items[i];
    ApprovalFoldAppend(LogOf(s, it.run), Event(ToolApprovalRequired(it.node, request), now), it.node);
  }

  // ---------------------------------------------------------------------------
  // The claim gate
  // ---------------------------------------------------------------------------

  datatype ClaimGate = Release | Withhold

  function Refusal(i: ItemId, wi: Item, w: World): Action {
    CommitTurn(i, wi.fence, wi.run, wi.node, RunStore.Refused, w.clock(9))
  }

  /** Fail a withheld item's node for good. */
  method FailNode(b: StateBackend, i: ItemId, wi: Item, w: World)
    requires b.Valid()
    requires i in b.items && b.items[i].run == wi.run && b.items[i].node == wi.node && wi.run in b.runs
    modifies b
    ensures b.Valid() && Later(old(b.State()), b.State())
    ensures OnlyWithholding(i, wi, old(b.own), b.own)
    ensures !w.fails(9) ==> !HeldUnder(b.State(), i, wi.fence)
    ensures Quiet(w) && old(HeldUnder(b.State(), i, wi.fence)) ==> b.own == old(b.own) + [Refusal(i, wi, w)]
  {
    ghost var s0 := b.State();
    b.Interfere(w.others(9));
    ghost var s1 := b.State();
    CoordinatesStay(s0, s1, i);
    if !w.fails(9) {
      WithholdingOne(i, wi, b.own, CommitTurn(i, wi.fence, wi.run, wi.node, RunStore.Refused, w.clock(9)));
      var committed := b.CommitTurnUnlessTerminal(i, wi.fence, NodeFailed(wi.node, false), wi.run, w.clock(9));
      LaterTransitive(s0, s1, b.State());
    }
  }

  /** Settle a held item under the fence of the claim; a lost fence is somebody else's to settle. */
  method SettleHold(b: StateBackend, i: ItemId, wi: Item, w: World, ghost lease: Store)
    requires b.Valid() && WellFormed(lease) && Later(lease, b.State()) && HeldUnder(lease, i, wi.fence)
    requires HeldUnder(b.State(), i, wi.fence) ==> SeenWithheld(b.State(), i)
    modifies b
    ensures b.Valid() && Later(old(b.State()), b.State())
    ensures OnlyWithholding(i, wi, old(b.own), b.own)
    ensures !w.fails(8) ==> !HeldUnder(b.State(), i, wi.fence)
    ensures Quiet(w) && old(HeldUnder(b.State(), i, wi.fence)) ==> b.own == old(b.own) + [SettleHeld(i, wi.fence)]
  {
    ghost var s0 := b.State();
    b.Interfere(w.others(8));
    ghost var s1 := b.State();
    if !w.fails(8) {
      WithholdingOne(i, wi, b.own, SettleHeld(i, wi.fence));
      SettleStaysLegal(b.config, lease, s0, s1, i, wi.fence);
      var settled := b.SettleHeldItem(i, wi.fence);
      LaterTransitive(s0, s1, b.State());
    }
  }

  /** A lease held at two moments was held in between, so what was seen under it still justifies the settle. */
  lemma SettleStaysLegal(cfg: Config, lease: Store, s: Store, t: Store, i: ItemId, fence: int)
    requires WellFormed(lease) && WellFormed(s) && WellFormed(t) && Later(lease, s) && Later(s, t)
    requires HeldUnder(lease, i, fence)
    requires HeldUnder(s, i, fence) ==> SeenWithheld(s, i)
    ensures HeldUnder(t, i, fence) ==> SeenWithheld(t, i)
  {
    LaterIs(lease, s);
    LaterIs(s, t);
    if HeldUnder(t, i, fence) {
      ExtendsTransitive(lease, s, t);
      FenceIdentifiesLease(lease, t, i, fence);
      assert ItemExtends(lease.items[i], s.items[i]) && ItemExtends(s.items[i], t.items[i]);
      WithheldIsStable(cfg, s, t, i, fence);
    }
  }

  /** What the gate writes of an item held under `wi.fence`: what the guard writes, and then the settle that the
      refusal requires. A node the registered workflow does not have fails; so does a blocked one, after the
      violation; a held one is only settled; an unreadable log settles nothing. */
  function GateWrites(s: Store, i: ItemId, wi: Item, tenant: Rule, deadline: Deadline, w: World): seq<Action>
    requires i in s.items
  {
    var def := DefOf(s, i);
    if def.None? then [Refusal(i, wi, w)]
    else
      GuardWrites(s, i, def.value, tenant, deadline, w.clock(3)) + SettleFor(s, i, wi, def.value, tenant, w)
  }

  function SettleFor(s: Store, i: ItemId, wi: Item, def: NodeDef, tenant: Rule, w: World): seq<Action>
    requires i in s.items
  {
    var it := s.items[i];
    var log := LogOf(s, it.run);
    if Says(def, tenant, Deny) then [Refusal(i, wi, w)]
    else if Says(def, tenant, Gate) && Readable(log) && !ApprovedFor(log, it.node, ActionOf(s, i, def)) then
      [SettleHeld(i, wi.fence)]
    else []
  }

  /** One state's decision, the settle it calls for and whether the node may run, in one. */
  lemma DecisionIs(s: Store, i: ItemId, wi: Item, def: NodeDef, tenant: Rule, deadline: Deadline, w: World)
    requires i in s.items && s.items[i].run == wi.run && s.items[i].node == wi.node && s.items[i].payload == wi.payload
    requires DefOf(s, i) == Some(def)
    ensures var outcome := GuardedBy(s, def, tenant, wi, deadline);
            && (outcome.Allow? <==> MayFire(s, i, tenant))
            && (outcome.Unavailable? ==> !Readable(LogOf(s, wi.run)))
            && SettleFor(s, i, wi, def, tenant, w)
               == if outcome.Blocked? then [Refusal(i, wi, w)]
                  else if outcome.Held? then [SettleHeld(i, wi.fence)] else []
  {
    var log := LogOf(s, wi.run);
    FiresIff(def, tenant, log, wi.run, wi.node, wi.payload, Completions(log, wi.node), deadline);
    if OpenOrRefused(log, wi.node) && ApprovedFor(log, wi.node, ActionOf(s, i, def)) {
      assert Says(def, tenant, Gate) ==> false;
    }
  }

  /** `gate_claimed_item`: the claim releases only what the guard allowed, under the engine's own record of
      the run's workflow; whatever it withholds it settles as the refusal requires, with legal writes, and
      never with a result. A failed read settles nothing. */
  method GateClaimedItem(b: StateBackend, i: ItemId, wi: Item, tenant: Rule, deadline: Deadline, w: World,
                         ghost lease: Store)
    returns (gate: ClaimGate)
    requires b.Valid() && WellFormed(lease) && Later(lease, b.State())
    requires HeldUnder(lease, i, wi.fence) && lease.items[i] == wi && wi.heldSince <= |LogOf(lease, wi.run)|
    modifies b
    ensures b.Valid() && Later(old(b.State()), b.State())
    ensures OnlyWithholding(i, wi, old(b.own), b.own)
    ensures gate.Release? ==> b.own == old(b.own) && AllowedSince(b.State(), i, wi.heldSince)
    ensures gate.Withhold? && Quiet(w) ==>
              !HeldUnder(b.State(), i, wi.fence) || !Readable(LogOf(old(b.State()), wi.run))
    ensures i in old(b.items)
    ensures Quiet(w) ==> (gate.Release? <==> MayFire(old(b.State()), i, tenant))
    ensures Quiet(w) && gate.Release? ==> b.State() == old(b.State())
    ensures Quiet(w) && old(HeldUnder(b.State(), i, wi.fence)) ==>
              b.own == old(b.own) + GateWrites(old(b.State()), i, wi, tenant, deadline, w)
    ensures w.fails(0) || w.fails(4) ==> gate.Withhold?
    ensures !w.fails(0) && !w.fails(4) && DefOf(lease, i).Some? && Says(DefOf(lease, i).value, tenant, Permit) ==>
              gate.Release?
  {
    ghost var s0 := b.State();
    CoordinatesStay(lease, s0, i);
    assert ItemWellFormed(lease, i);
    gate := Withhold;
    var execution := b.GetExecution(wi.run);
    if w.fails(0) || execution.None? { return; }
    b.Interfere(w.others(0));
    ghost var s1 := b.State();
    if w.fails(4) { return; }
    var key := execution.value.0;
    var ir := b.GetWorkflow(key);
    LaterTransitive(lease, s0, s1);
    CoordinatesStay(lease, s1, i);
    if DefOf(lease, i).Some? { DefinitionIsThere(lease, s0, s1, i); }
    if ir.None? || wi.node !in ir.value.nodes {
      FailNode(b, i, wi, w);
      LaterTransitive(s0, s1, b.State());
      return;
    }
    SameDefinition(lease, s0, s1, i, key, ir.value);
    DefinitionStays(lease, s1, i);
    gate := GateByPolicy(b, i, wi, ir.value.nodes[wi.node], tenant, deadline, w, lease);
    LaterTransitive(s0, s1, b.State());
  }

  lemma DefinitionIsThere(lease: Store, s: Store, t: Store, i: ItemId)
    requires WellFormed(lease) && Later(lease, s) && Later(s, t) && DefOf(lease, i).Some?
    ensures var r := lease.items[i].run;
            && r in s.runs && s.runs[r].workflow in t.workflows
            && lease.items[i].node in t.workflows[s.runs[r].workflow].nodes
  {
    LaterIs(lease, s);
    LaterIs(s, t);
    assert RunExtends(lease.runs[lease.items[i].run], s.runs[lease.items[i].run]);
  }

  /** Two reads, one definition: the run's workflow key and the version stored under it never change. */
  lemma SameDefinition(lease: Store, s: Store, t: Store, i: ItemId, key: WorkflowKey, ir: Ir)
    requires WellFormed(lease) && Later(lease, s) && Later(s, t) && i in lease.items
    requires lease.items[i].run in s.runs && s.runs[lease.items[i].run].workflow == key
    requires key in t.workflows && t.workflows[key] == ir && lease.items[i].node in ir.nodes
    ensures DefOf(lease, i) == Some(ir.nodes[lease.items[i].node])
  {
    LaterIs(lease, s);
    LaterIs(s, t);
    assert ItemWellFormed(lease, i);
    var r := lease.items[i].run;
    assert RunExtends(lease.runs[r], s.runs[r]);
  }

  /** The decision and the settle it calls for. */
  method GateByPolicy(b: StateBackend, i: ItemId, wi: Item, def: NodeDef, tenant: Rule, deadline: Deadline, w: World,
                      ghost lease: Store)
    returns (gate: ClaimGate)
    requires b.Valid() && WellFormed(lease) && Later(lease, b.State())
    requires HeldUnder(lease, i, wi.fence) && lease.items[i] == wi && wi.heldSince <= |LogOf(lease, wi.run)|
    requires DefOf(lease, i) == Some(def)
    modifies b
    ensures b.Valid() && Later(old(b.State()), b.State())
    ensures OnlyWithholding(i, wi, old(b.own), b.own)
    ensures gate.Release? ==> b.own == old(b.own) && AllowedSince(b.State(), i, wi.heldSince)
    ensures gate.Withhold? && Quiet(w) ==>
              !HeldUnder(b.State(), i, wi.fence) || !Readable(LogOf(old(b.State()), wi.run))
    ensures i in old(b.items)
    ensures Quiet(w) ==> (gate.Release? <==> MayFire(old(b.State()), i, tenant))
    ensures Quiet(w) && gate.Release? ==> b.State() == old(b.State())
    ensures Quiet(w) && old(HeldUnder(b.State(), i, wi.fence)) ==>
              b.own == old(b.own) + GateWrites(old(b.State()), i, wi, tenant, deadline, w)
    ensures Says(def, tenant, Permit) ==> gate.Release?
  {
    ghost var s0, own0 := b.State(), b.own;
    CoordinatesStay(lease, s0, i);
    DefinitionStays(lease, s0, i);
    DecisionIs(s0, i, wi, def, tenant, deadline, w);
    var outcome := GuardItem(b, i, wi, def, tenant, deadline, w, lease);
    ghost var s1, own1 := b.State(), b.own;
    LaterTransitive(lease, s0, s1);
    CoordinatesStay(lease, s1, i);
    SettleRefused(b, i, wi, outcome, w, lease);
    LaterTransitive(s0, s1, b.State());
    WithholdingMore(i, wi, own0, own1, b.own);
    gate := if outcome.Allow? then Release else Withhold;
  }

  /** The settle that a refusal of the guard calls for. */
  method SettleRefused(b: StateBackend, i: ItemId, wi: Item, outcome: Guard.Outcome, w: World, ghost lease: Store)
    requires b.Valid() && WellFormed(lease) && Later(lease, b.State()) && HeldUnder(lease, i, wi.fence)
    requires i in b.items && b.items[i].run == wi.run && b.items[i].node == wi.node && wi.run in b.runs
    requires outcome.Held? ==> (HeldUnder(b.State(), i, wi.fence) ==> SeenWithheld(b.State(), i))
    modifies b
    ensures b.Valid() && Later(old(b.State()), b.State())
    ensures OnlyWithholding(i, wi, old(b.own), b.own)
    ensures outcome.Allow? || outcome.Unavailable? ==> b.State() == old(b.State()) && b.own == old(b.own)
    ensures Quiet(w) && (outcome.Blocked? || outcome.Held?) ==> !HeldUnder(b.State(), i, wi.fence)
    ensures Quiet(w) && old(HeldUnder(b.State(), i, wi.fence)) ==>
              b.own == old(b.own) + if outcome.Blocked? then [Refusal(i, wi, w)]
                                    else if outcome.Held? then [SettleHeld(i, wi.fence)] else []
  {
    LaterIs(b.State(), b.State());
    match outcome
    case Blocked => FailNode(b, i, wi, w);
    case Held(_) => SettleHold(b, i, wi, w, lease);
    case _ =>
  }

  // ---------------------------------------------------------------------------
  // Claim
  // ---------------------------------------------------------------------------

  /** What one claim request meets: the item the backend's query picks at each try, and the policy and
      deadline settings at the moment the gate evaluates. */
  datatype ClaimWorld = ClaimWorld(candidate: nat -> ItemId, tries: nat -> World, gate: World, release: World,
                                   tenant: Rule, deadline: Deadline)

  datatype Try = Stop | Cleared | Got(item: Item)

  predicate Claimable(s: Store, i: ItemId) {
    i in s.items && s.items[i].status.Queued? && s.items[i].epoch + 1 < EPOCHS
  }

  predicate ClaimableAndLive(s: Store, i: ItemId) {
    Claimable(s, i) && !Terminal(s, s.items[i].run)
  }

  /** The row of an item that was claimed and then failed, because its run had ended. */
  function Dropped(s: Store, i: ItemId, worker: WorkerId): Item
    requires i in s.items
  {
    Leased(s, i, worker).(status := ItemStatus.Failed, worker := None)
  }

  /** The candidates of the first `k` tries were all there to be claimed, each a different item of a run that
      had ended. */
  predicate AllEnded(s: Store, w: ClaimWorld, k: nat) {
    forall j | 0 <= j < k ::
      && Claimable(s, w.candidate(j)) && Terminal(s, s.items[w.candidate(j)].run)
      && forall l | 0 <= l < j :: w.candidate(l) != w.candidate(j)
  }

  /** Try `k` meets the first item of a live run, within the sixteen tries of one request. */
  predicate FirstLive(s: Store, w: ClaimWorld, k: nat) {
    k < 16 && AllEnded(s, w, k) && ClaimableAndLive(s, w.candidate(k))
  }

  ghost predicate QuietClaim(w: ClaimWorld) {
    (forall k | 0 <= k < 16 :: Quiet(w.tries(k))) && Quiet(w.gate) && Quiet(w.release)
  }

  /** One round of the claim loop: claim, look at the run, and fail an item whose run has ended. `lease` is
      the store when the lease was minted, `seen` when the run was looked at. */
  method TryClaim(b: StateBackend, i: ItemId, worker: WorkerId, w: World)
    returns (result: Try, ghost lease: Store, ghost seen: Store)
    requires b.Valid()
    modifies b
    ensures b.Valid() && Later(old(b.State()), b.State())
    ensures result.Stop? ==> b.own == old(b.own) || b.own == old(b.own) + [ClaimItem(i, worker)]
    ensures result.Cleared? ==> b.own == old(b.own) + [ClaimItem(i, worker), FailItem(i)]
    ensures result.Got? ==>
              && b.own == old(b.own) + [ClaimItem(i, worker)]
              && WellFormed(lease) && Later(lease, b.State())
              && HeldUnder(lease, i, result.item.fence) && lease.items[i] == result.item
              && result.item.worker == Some(worker)
              && Later(old(b.State()), lease) && result.item.heldSince == |LogOf(lease, result.item.run)|
              && Later(lease, seen) && Later(seen, b.State()) && !Terminal(seen, result.item.run)
    ensures Quiet(w) && !Claimable(old(b.State()), i) ==> result.Stop? && b.State() == old(b.State())
    ensures Quiet(w) && Claimable(old(b.State()), i) && Terminal(old(b.State()), old(b.items)[i].run) ==>
              result.Cleared? && b.State() == SetItem(old(b.State()), i, Dropped(old(b.State()), i, worker))
    ensures Quiet(w) && ClaimableAndLive(old(b.State()), i) ==>
              && result == Got(Leased(old(b.State()), i, worker))
              && b.State() == SetItem(old(b.State()), i, Leased(old(b.State()), i, worker))
  {
    ghost var s0 := b.State();
    lease, seen := s0, s0;
    b.Interfere(w.others(0));
    ghost var s1 := b.State();
    if w.fails(0) { return Stop, lease, seen; }
    var item := b.ClaimWorkItem(i, worker);
    if item.None? { return Stop, lease, seen; }
    lease := b.State();
    LaterTransitive(s0, s1, lease);
    result, seen := LookAtRun(b, i, item.value, w, lease);
    LaterTransitive(s0, lease, b.State());
  }

  /** After the claim: settle the item of a run that has ended, keep any other. */
  method LookAtRun(b: StateBackend, i: ItemId, item: Item, w: World, ghost lease: Store)
    returns (result: Try, ghost seen: Store)
    requires b.Valid() && b.State() == lease && i in lease.items && lease.items[i] == item
    modifies b
    ensures b.Valid() && Later(lease, b.State())
    ensures b.own == if result.Cleared? then old(b.own) + [FailItem(i)] else old(b.own)
    ensures result.Got? ==>
              && result.item == item
              && Later(lease, seen) && Later(seen, b.State()) && !Terminal(seen, item.run)
    ensures Quiet(w) ==> (result.Cleared? <==> Terminal(lease, item.run)) && !result.Stop?
    ensures Quiet(w) ==>
              b.State() == if result.Cleared? then SetItem(lease, i, item.(status := ItemStatus.Failed, worker := None))
                           else lease
  {
    b.Interfere(w.others(1));
    seen := b.State();
    LaterIs(seen, seen);
    var execution := b.GetExecution(item.run);
    if w.fails(1) { return Stop, seen; }
    if execution.None? || !execution.value.1.IsTerminal() { return Got(item), seen; }
    CoordinatesStay(lease, seen, i);
    b.Interfere(w.others(2));
    if w.fails(2) {
      LaterTransitive(lease, seen, b.State());
      return Stop, seen;
    }
    result := Cleared;
    DropItem(b, i, item.run, seen);
    LaterTransitive(lease, seen, b.State());
  }

  method DropItem(b: StateBackend, i: ItemId, r: RunId, ghost seen: Store)
    requires b.Valid() && Later(seen, b.State())
    requires i in seen.items && seen.items[i].run == r && Terminal(seen, r)
    modifies b
    ensures b.Valid() && Later(seen, b.State()) && b.own == old(b.own) + [FailItem(i)]
    ensures i in old(b.items)
    ensures b.State() == SetItem(old(b.State()), i, old(b.items)[i].(status := ItemStatus.Failed, worker := None))
  {
    ghost var s0 := b.State();
    CoordinatesStay(seen, s0, i);
    EndedStays(seen, s0, r);
    b.FailWorkItem(i);
    LaterTransitive(seen, s0, b.State());
  }

  predicate Clears(a: Action) {
    a.ClaimItem? || a.FailItem?
  }

  predicate OnlyClearing(before: seq<Action>, after: seq<Action>) {
    before <= after && forall k | |before| <= k < |after| :: Clears(after[k])
  }

  /** The claim loop: at most sixteen items, of which all but the last belong to runs that had ended, and
      the last to one that had not when it was looked at under the lease. */
  method ClaimLoop(b: StateBackend, worker: WorkerId, w: ClaimWorld)
    returns (claimed: Option<(ItemId, Item)>, ghost lease: Store, ghost seen: Store)
    requires b.Valid()
    modifies b
    ensures b.Valid() && Later(old(b.State()), b.State())
    ensures OnlyClearing(old(b.own), b.own) && |b.own| <= |old(b.own)| + 32
    ensures claimed.Some? ==>
              && WellFormed(lease) && Later(lease, b.State())
              && HeldUnder(lease, claimed.value.0, claimed.value.1.fence)
              && lease.items[claimed.value.0] == claimed.value.1
              && claimed.value.1.worker == Some(worker)
              && Later(old(b.State()), lease)
              && claimed.value.1.heldSince == |LogOf(lease, claimed.value.1.run)|
              && Later(lease, seen) && Later(seen, b.State()) && !Terminal(seen, claimed.value.1.run)
    ensures QuietClaim(w) ==> Found(old(b.State()), b.State(), worker, w, claimed)
  {
    claimed, lease, seen := None, b.State(), b.State();
    ghost var s0, own0 := b.State(), b.own;
    LoopStarts(s0, w);
    for k := 0 to 16
      invariant b.Valid() && Later(s0, b.State())
      invariant OnlyClearing(own0, b.own) && |b.own| <= |own0| + 2 * k
      invariant QuietClaim(w) ==> SoFar(s0, b.State(), w, k)
    {
      ghost var s1 := b.State();
      var result, leased, looked := TryClaim(b, w.candidate(k), worker, w.tries(k));
      LaterTransitive(s0, s1, b.State());
      match result
      case Stop =>
        if QuietClaim(w) { LoopStops(s0, s1, worker, w, k); }
        return;
      case Got(item) =>
        LaterTransitive(s0, s1, leased);
        if QuietClaim(w) { LoopGets(s0, s1, worker, w, k); }
        return Some((w.candidate(k), item)), leased, looked;
      case Cleared =>
        if QuietClaim(w) { LoopGoesOn(s0, s1, worker, w, k); }
    }
    if QuietClaim(w) { LoopEnds(s0, b.State(), worker, w); }
  }

  /** The claim handed back is the candidate of try `k`, with the row as that try leased it. */
  predicate Hits(s: Store, t: Store, worker: WorkerId, w: ClaimWorld, k: nat, claimed: (ItemId, Item)) {
    var i := w.candidate(k);
    i in s.items && claimed == (i, Leased(s, i, worker)) && i in t.items && t.items[i] == Leased(s, i, worker)
  }

  /** What the loop finds on store `s`, leaving store `t`: the first live candidate, or that there is none. */
  predicate IsFound(s: Store, t: Store, worker: WorkerId, w: ClaimWorld, claimed: Option<(ItemId, Item)>) {
    if claimed.None? then forall k | 0 <= k < 16 :: !FirstLive(s, w, k)
    else
      && t.runs == s.runs && t.workflows == s.workflows
      && exists k | 0 <= k < 16 :: FirstLive(s, w, k) && Hits(s, t, worker, w, k, claimed.value)
  }

  /** The same, unfolded only where a proof names `IsFound`. */
  ghost predicate Found(s: Store, t: Store, worker: WorkerId, w: ClaimWorld, claimed: Option<(ItemId, Item)>) {
    forall c | c == claimed :: IsFound(s, t, worker, w, c)
  }

  lemma FoundIs(s: Store, t: Store, worker: WorkerId, w: ClaimWorld, claimed: Option<(ItemId, Item)>)
    ensures Found(s, t, worker, w, claimed) <==> IsFound(s, t, worker, w, claimed)
  {
    assert Found(s, t, worker, w, claimed) ==> IsFound(s, t, worker, w, claimed);
  }

  predicate Tried(w: ClaimWorld, k: nat, i: ItemId) {
    exists j | 0 <= j < k :: w.candidate(j) == i
  }

  /** What the first `k` tries left: only their own candidates changed, and those are no longer queued. */
  ghost predicate OnlyTried(s: Store, t: Store, w: ClaimWorld, k: nat) {
    && t.runs == s.runs && t.workflows == s.workflows && t.term == s.term
    && (forall i | !Tried(w, k, i) :: (i in t.items <==> i in s.items) && (i in s.items ==> t.items[i] == s.items[i]))
    && (forall j | 0 <= j < k :: w.candidate(j) in t.items && !t.items[w.candidate(j)].status.Queued?)
  }

  /** After `k` tries; unfolded only where a proof names its two parts. */
  ghost predicate SoFar(s: Store, t: Store, w: ClaimWorld, k: nat) {
    forall n: nat | n == k :: AllEnded(s, w, n) && OnlyTried(s, t, w, n)
  }

  lemma LoopStarts(s: Store, w: ClaimWorld)
    ensures SoFar(s, s, w, 0)
  {
  }

  lemma LoopStops(s: Store, t: Store, worker: WorkerId, w: ClaimWorld, k: nat)
    requires SoFar(s, t, w, k) && !Claimable(t, w.candidate(k))
    ensures Found(s, t, worker, w, None)
  {
    assert AllEnded(s, w, k) && OnlyTried(s, t, w, k);
    StopMeansNone(s, t, worker, w, k);
    FoundIs(s, t, worker, w, None);
  }

  lemma LoopGets(s: Store, t: Store, worker: WorkerId, w: ClaimWorld, k: nat)
    requires SoFar(s, t, w, k) && k < 16 && ClaimableAndLive(t, w.candidate(k))
    ensures var i := w.candidate(k);
            var item := Leased(t, i, worker);
            Found(s, SetItem(t, i, item), worker, w, Some((i, item)))
  {
    assert AllEnded(s, w, k) && OnlyTried(s, t, w, k);
    NextTry(s, t, worker, w, k);
    var i := w.candidate(k);
    var item := Leased(t, i, worker);
    assert FirstLive(s, w, k) && Hits(s, SetItem(t, i, item), worker, w, k, (i, item));
    FoundIs(s, SetItem(t, i, item), worker, w, Some((i, item)));
  }

  lemma LoopGoesOn(s: Store, t: Store, worker: WorkerId, w: ClaimWorld, k: nat)
    requires SoFar(s, t, w, k)
    requires Claimable(t, w.candidate(k)) && Terminal(t, t.items[w.candidate(k)].run)
    ensures SoFar(s, SetItem(t, w.candidate(k), Dropped(t, w.candidate(k), worker)), w, k + 1)
  {
    assert AllEnded(s, w, k) && OnlyTried(s, t, w, k);
    NextEnded(s, t, worker, w, k);
  }

  lemma LoopEnds(s: Store, t: Store, worker: WorkerId, w: ClaimWorld)
    requires SoFar(s, t, w, 16)
    ensures Found(s, t, worker, w, None)
  {
    assert AllEnded(s, w, 16);
    EndedMeansNone(s, w, 16);
    FoundIs(s, t, worker, w, None);
  }

  /** What try `k` meets is what stood there at the start, unless an earlier try had it. */
  lemma NextTry(s: Store, t: Store, worker: WorkerId, w: ClaimWorld, k: nat)
    requires OnlyTried(s, t, w, k)
    ensures var i := w.candidate(k);
            && (Claimable(t, i) <==> Claimable(s, i) && !Tried(w, k, i))
            && (Claimable(t, i) ==>
                  && t.items[i] == s.items[i] && Leased(t, i, worker) == Leased(s, i, worker)
                  && (Terminal(t, t.items[i].run) <==> Terminal(s, s.items[i].run)))
  {
    var i := w.candidate(k);
    if Tried(w, k, i) {
      var j :| 0 <= j < k && w.candidate(j) == i;
      assert !t.items[w.candidate(j)].status.Queued?;
    }
  }

  lemma EndedMeansNone(s: Store, w: ClaimWorld, k: nat)
    requires AllEnded(s, w, k)
    ensures forall j | 0 <= j < k :: !FirstLive(s, w, j)
  {
  }

  lemma StopMeansNone(s: Store, t: Store, worker: WorkerId, w: ClaimWorld, k: nat)
    requires AllEnded(s, w, k) && OnlyTried(s, t, w, k) && !Claimable(t, w.candidate(k))
    ensures forall j | 0 <= j < 16 :: !FirstLive(s, w, j)
  {
    NextTry(s, t, worker, w, k);
    EndedMeansNone(s, w, k);
    if l :| 0 <= l < k && w.candidate(l) == w.candidate(k) {
      assert Terminal(s, s.items[w.candidate(l)].run);
    }
  }

  lemma TriedNext(w: ClaimWorld, k: nat, i: ItemId)
    ensures Tried(w, k + 1, i) <==> Tried(w, k, i) || w.candidate(k) == i
  {
    if j :| 0 <= j < k && w.candidate(j) == i {
      assert 0 <= j < k + 1;
    }
  }

  lemma NextEnded(s: Store, t: Store, worker: WorkerId, w: ClaimWorld, k: nat)
    requires AllEnded(s, w, k) && OnlyTried(s, t, w, k)
    requires Claimable(t, w.candidate(k)) && Terminal(t, t.items[w.candidate(k)].run)
    ensures AllEnded(s, w, k + 1)
    ensures OnlyTried(s, SetItem(t, w.candidate(k), Dropped(t, w.candidate(k), worker)), w, k + 1)
  {
    NextTry(s, t, worker, w, k);
    OneMoreEnded(s, w, k);
    DropKeepsTried(s, t, w, k, Dropped(t, w.candidate(k), worker));
  }

  lemma OneMoreEnded(s: Store, w: ClaimWorld, k: nat)
    requires AllEnded(s, w, k) && !Tried(w, k, w.candidate(k))
    requires Claimable(s, w.candidate(k)) && Terminal(s, s.items[w.candidate(k)].run)
    ensures AllEnded(s, w, k + 1)
  {
    forall l | 0 <= l < k ensures w.candidate(l) != w.candidate(k) { assert !Tried(w, k, w.candidate(k)); }
  }

  lemma DropKeepsTried(s: Store, t: Store, w: ClaimWorld, k: nat, row: Item)
    requires OnlyTried(s, t, w, k) && !row.status.Queued?
    ensures OnlyTried(s, SetItem(t, w.candidate(k), row), w, k + 1)
  {
    forall i ensures Tried(w, k + 1, i) <==> Tried(w, k, i) || w.candidate(k) == i { TriedNext(w, k, i); }
  }

  predicate Hands(a: Action) {
    a.ReleaseItem?
  }

  predicate HandsNothing(before: seq<Action>, after: seq<Action>) {
    forall k | |before| <= k < |after| :: !Hands(after[k])
  }

  /** The last write hands out, and those before it claimed items or failed them. */
  predicate HandsLast(before: seq<Action>, after: seq<Action>, last: Action) {
    && |after| > |before| && after[|after| - 1] == last
    && forall k | |before| <= k < |after| - 1 :: Clears(after[k])
  }

  lemma ClearedThenHanded(before: seq<Action>, mid: seq<Action>, last: Action)
    requires OnlyClearing(before, mid)
    ensures before <= mid + [last] && HandsLast(before, mid + [last], last)
  {
  }

  lemma ClearedThenNothing(before: seq<Action>, mid: seq<Action>, after: seq<Action>)
    requires OnlyClearing(before, mid) && mid <= after && HandsNothing(mid, after)
    ensures before <= after && HandsNothing(before, after)
  {
  }

  method HandOut(b: StateBackend, i: ItemId, wi: Item, w: World, ghost lease: Store)
    requires b.Valid() && WellFormed(lease) && Later(lease, b.State())
    requires HeldUnder(lease, i, wi.fence) && lease.items[i] == wi
    requires AllowedSince(b.State(), i, wi.heldSince)
    modifies b
    ensures b.Valid() && Later(old(b.State()), b.State())
    ensures b.own == old(b.own) + [ReleaseItem(i, wi.fence)] && (i, wi.fence) in b.granted
    ensures AllowedSince(b.State(), i, wi.heldSince)
    ensures Quiet(w) ==> b.items == old(b.items) && b.runs == old(b.runs)
  {
    ghost var s0 := b.State();
    b.Interfere(w.others(0));
    ghost var s1 := b.State();
    AllowedStays(s0, s1, i, wi.heldSince);
    LaterTransitive(lease, s0, s1);
    AllowedMayBeReleased(lease, s1, i, wi.fence);
    b.HandOver(i, wi.fence);
    AllowedStays(s1, b.State(), i, wi.heldSince);
    LaterTransitive(s0, s1, b.State());
  }

  lemma LogGrows(s: Store, t: Store, r: RunId)
    requires Later(s, t)
    ensures |LogOf(s, r)| <= |LogOf(t, r)|
  {
    LaterIs(s, t);
    if r in s.runs { assert RunExtends(s.runs[r], t.runs[r]); }
  }

  /** The item is not left leased to a worker that was told nothing, unless its run's log cannot be read. */
  predicate NotLeft(s: Store, t: Store, i: ItemId, worker: WorkerId)
    requires i in s.items
  {
    !HeldUnder(t, i, Leased(s, i, worker).fence) || !Readable(LogOf(s, s.items[i].run))
  }

  lemma OneFirstLive(s: Store, w: ClaimWorld, j: nat, k: nat)
    requires FirstLive(s, w, j) && FirstLive(s, w, k)
    ensures j == k
  {
  }

  lemma MayFireStays(s: Store, t: Store, i: ItemId, tenant: Rule)
    requires i in s.items && i in t.items && t.runs == s.runs && t.workflows == s.workflows
    requires t.items[i].run == s.items[i].run && t.items[i].node == s.items[i].node && t.items[i].payload == s.items[i].payload
    ensures MayFire(t, i, tenant) <==> MayFire(s, i, tenant)
  {
  }

  /** The answer of a claim on store `s`, leaving store `t`: the first live candidate with its row as leased, if it
      may fire; nothing otherwise, and then the item is not left leased. */
  predicate IsAnswer(s: Store, t: Store, worker: WorkerId, w: ClaimWorld, claimed: Option<(ItemId, Item)>) {
    if claimed.Some? then
      exists k | 0 <= k < 16 ::
        && FirstLive(s, w, k) && MayFire(s, w.candidate(k), w.tenant) && Hits(s, t, worker, w, k, claimed.value)
    else
      forall k | 0 <= k < 16 && FirstLive(s, w, k) ::
        !MayFire(s, w.candidate(k), w.tenant) && NotLeft(s, t, w.candidate(k), worker)
  }

  /** The same, unfolded only where a proof names `IsAnswer`. */
  ghost predicate Answers(s: Store, t: Store, worker: WorkerId, w: ClaimWorld, claimed: Option<(ItemId, Item)>) {
    forall c | c == claimed :: IsAnswer(s, t, worker, w, c)
  }

  lemma NothingFound(s: Store, t: Store, worker: WorkerId, w: ClaimWorld)
    requires Found(s, t, worker, w, None)
    ensures Answers(s, t, worker, w, None)
  {
    FoundIs(s, t, worker, w, None);
    assert IsAnswer(s, t, worker, w, None);
  }

  /** What the gate made of the item found. */
  predicate IsGateAnswer(s: Store, t: Store, i: ItemId, item: Item, tenant: Rule, released: bool) {
    && i in s.items
    && (released <==> MayFire(s, i, tenant))
    && (released ==> t.items == s.items)
    && (!released ==> !HeldUnder(t, i, item.fence) || !Readable(LogOf(s, item.run)))
  }

  ghost predicate GateAnswers(s: Store, t: Store, i: ItemId, item: Item, tenant: Rule, released: bool) {
    forall r | r == released :: IsGateAnswer(s, t, i, item, tenant, r)
  }

  lemma FoundAndGated(s: Store, mid: Store, t: Store, worker: WorkerId, w: ClaimWorld, found: (ItemId, Item), released: bool)
    requires Found(s, mid, worker, w, Some(found)) && GateAnswers(mid, t, found.0, found.1, w.tenant, released)
    ensures Answers(s, t, worker, w, if released then Some(found) else None)
  {
    FoundIs(s, mid, worker, w, Some(found));
    var (i, item) := found;
    assert IsGateAnswer(mid, t, i, item, w.tenant, released);
    var k :| 0 <= k < 16 && FirstLive(s, w, k) && Hits(s, mid, worker, w, k, found);
    MayFireStays(s, mid, i, w.tenant);
    forall j | 0 <= j < 16 && FirstLive(s, w, j) ensures j == k { OneFirstLive(s, w, j, k); }
    if released {
      assert Hits(s, t, worker, w, k, found);
    }
    assert IsAnswer(s, t, worker, w, if released then Some(found) else None);
  }

  /** `claim_work_item`: a payload leaves the engine only under a lease minted for this very caller, only
      after the gate allowed that item on a read made under that lease, and the hand-over is the last thing
      the route does. Every other answer hands over nothing. */
  method ClaimWorkItem(b: StateBackend, worker: WorkerId, w: ClaimWorld)
    returns (claimed: Option<(ItemId, Item)>, ghost seen: Store)
    requires b.Valid()
    modifies b
    ensures b.Valid() && Later(old(b.State()), b.State())
    ensures old(b.own) <= b.own
    ensures claimed.None? ==> HandsNothing(old(b.own), b.own)
    ensures claimed.Some? ==>
              var (i, item) := claimed.value;
              && (i, item.fence) in b.granted && AllowedSince(b.State(), i, item.heldSince)
              && old(|LogOf(b.State(), item.run)|) <= item.heldSince
              && item.worker == Some(worker)
              && Later(seen, b.State()) && !Terminal(seen, item.run)
              && HandsLast(old(b.own), b.own, ReleaseItem(i, item.fence))
    ensures QuietClaim(w) ==> Answers(old(b.State()), b.State(), worker, w, claimed)
  {
    ghost var s0, own0 := b.State(), b.own;
    var found, lease, looked := ClaimLoop(b, worker, w);
    seen := looked;
    ghost var own1 := b.own;
    if found.None? {
      ClearedThenNothing(own0, own1, own1);
      if QuietClaim(w) { NothingFound(s0, b.State(), worker, w); }
      return None, seen;
    }
    var (i, item) := found.value;
    ghost var s1 := b.State();
    LogGrows(s0, lease, item.run);
    var released := GateAndHandOut(b, i, item, w, lease);
    LaterTransitive(s0, s1, b.State());
    LaterTransitive(seen, s1, b.State());
    if QuietClaim(w) { FoundAndGated(s0, s1, b.State(), worker, w, found.value, released); }
    if released {
      ClearedThenHanded(own0, own1, ReleaseItem(i, item.fence));
    } else {
      ClearedThenNothing(own0, own1, b.own);
    }
    return if released then Some((i, item)) else None, seen;
  }

  /** The gate, and the hand-over of what it releases. */
  method GateAndHandOut(b: StateBackend, i: ItemId, wi: Item, w: ClaimWorld, ghost lease: Store)
    returns (released: bool)
    requires b.Valid() && WellFormed(lease) && Later(lease, b.State())
    requires HeldUnder(lease, i, wi.fence) && lease.items[i] == wi && wi.heldSince <= |LogOf(lease, wi.run)|
    modifies b
    ensures b.Valid() && Later(old(b.State()), b.State()) && old(b.own) <= b.own
    ensures released ==>
              && b.own == old(b.own) + [ReleaseItem(i, wi.fence)] && (i, wi.fence) in b.granted
              && AllowedSince(b.State(), i, wi.heldSince)
    ensures !released ==> HandsNothing(old(b.own), b.own)
    ensures (&& !w.gate.fails(0) && !w.gate.fails(4)
             && DefOf(lease, i).Some? && Says(DefOf(lease, i).value, w.tenant, Permit)) ==> released
    ensures Quiet(w.gate) && Quiet(w.release) ==> GateAnswers(old(b.State()), b.State(), i, wi, w.tenant, released)
    ensures Quiet(w.gate) && !released && old(HeldUnder(b.State(), i, wi.fence)) ==>
              b.own == old(b.own) + GateWrites(old(b.State()), i, wi, w.tenant, w.deadline, w.gate)
  {
    ghost var s1 := b.State();
    var gate := GateClaimedItem(b, i, wi, w.tenant, w.deadline, w.gate, lease);
    ghost var s2 := b.State();
    released := gate.Release?;
    if released {
      LaterTransitive(lease, s1, s2);
      HandOut(b, i, wi, w.release, lease);
      LaterTransitive(s1, s2, b.State());
    }
    assert Quiet(w.gate) && Quiet(w.release) ==> IsGateAnswer(s1, b.State(), i, wi, w.tenant, released);
  }
}
